/**
 * The genesis validator map that `init_chain` builds from the consensus
 * engine's request: one `insert` per listed validator, so a public key listed
 * twice keeps the power of its last listing.
 */
module Genesis {
  import opened ChainTypes

  /** One entry of the request's validator list: public key bytes and an `i64` power. */
  datatype RequestValidator = RequestValidator(pubKey: Bytes, power: I64)

  /**
   * `power as u64`: the same 64 bits read as unsigned, so a negative power
   * becomes a large one.
   */
  function AsU64(p: I64): (r: U64)
    ensures r % TwoTo64 == p % TwoTo64
    ensures 0 <= p ==> r == p
  {
    if p < 0 then p + TwoTo64 else p
  }

  /** The map after inserting every listed validator in order. */
  function FromList(req: seq<RequestValidator>): ValidatorMap
  {
    if req == [] then map[]
    else FromList(req[..|req| - 1])[req[|req| - 1].pubKey := AsU64(req[|req| - 1].power)]
  }

  /** The public keys named in the request. */
  function PubKeys(req: seq<RequestValidator>): set<Bytes>
  {
    set v | v in req :: v.pubKey
  }

  /** Entry `i` is the last listing of its public key. */
  predicate LastListing(req: seq<RequestValidator>, i: int)
  {
    0 <= i < |req| && forall j :: i < j < |req| ==> req[j].pubKey != req[i].pubKey
  }

  /** The map's keys are exactly the public keys in the request. */
  lemma {:induction false} FromListKeys(req: seq<RequestValidator>)
    ensures FromList(req).Keys == PubKeys(req)
  {
    if req != [] {
      var init, last := req[..|req| - 1], req[|req| - 1];
      FromListKeys(init);
      assert req == init + [last];
      assert PubKeys(req) == PubKeys(init) + {last.pubKey};
    }
  }

  /** Each key maps to the converted power of its last listing. */
  lemma {:induction false} FromListLast(req: seq<RequestValidator>, i: int)
    requires LastListing(req, i)
    ensures req[i].pubKey in FromList(req)
    ensures FromList(req)[req[i].pubKey] == AsU64(req[i].power)
  {
    var n := |req| - 1;
    if i < n {
      var init := req[..n];
      assert LastListing(init, i) by {
        forall j | i < j < |init| ensures init[j].pubKey != init[i].pubKey {
          assert init[j] == req[j];
        }
      }
      FromListLast(init, i);
    }
  }

  /** Every key of the map has a last listing that supplies its power. */
  lemma {:induction false} FromListSourced(req: seq<RequestValidator>, k: Bytes)
    requires k in FromList(req)
    ensures exists i :: LastListing(req, i) && req[i].pubKey == k && FromList(req)[k] == AsU64(req[i].power)
  {
    var n := |req| - 1;
    if req[n].pubKey == k {
      assert LastListing(req, n);
    } else {
      var init := req[..n];
      FromListSourced(init, k);
      var i :| LastListing(init, i) && init[i].pubKey == k && FromList(init)[k] == AsU64(init[i].power);
      assert LastListing(req, i);
    }
  }

  /** The `for validator in req.get_validators()` loop of `init_chain`. */
  method BuildValidatorMap(req: seq<RequestValidator>) returns (m: ValidatorMap)
    ensures m == FromList(req)
    ensures m.Keys == PubKeys(req)
    ensures forall i :: LastListing(req, i) ==> req[i].pubKey in m && m[req[i].pubKey] == AsU64(req[i].power)
  {
    m := map[];
    for i := 0 to |req|
      invariant m == FromList(req[..i])
    {
      assert req[..i + 1][..i] == req[..i];
      m := m[req[i].pubKey := AsU64(req[i].power)];
    }
    assert req[..|req|] == req;
    FromListKeys(req);
    forall i | LastListing(req, i)
      ensures req[i].pubKey in m && m[req[i].pubKey] == AsU64(req[i].power)
    {
      FromListLast(req, i);
    }
  }

  /** Example: two distinct validators with powers 70 and 30 are both kept with their powers. */
  lemma TwoValidatorGenesis(a: Bytes, b: Bytes)
    requires a != b
    ensures FromList([RequestValidator(a, 70), RequestValidator(b, 30)]) == map[a := 70, b := 30]
  {
    var req := [RequestValidator(a, 70), RequestValidator(b, 30)];
    assert req[..1][..0] == [];
    assert FromList(req[..1]) == map[a := 70];
    assert FromList(req) == FromList(req[..1])[b := 30];
  }

  /** Example: a key listed twice keeps its later power, and a power of -1 wraps around to 2^64 - 1. */
  lemma DuplicateListing(a: Bytes)
    ensures FromList([RequestValidator(a, 5), RequestValidator(a, -1)]) == map[a := TwoTo64 - 1]
  {
    var req := [RequestValidator(a, 5), RequestValidator(a, -1)];
    assert req[..1][..0] == [];
    assert FromList(req[..1]) == map[a := 5];
    assert FromList(req) == FromList(req[..1])[a := TwoTo64 - 1];
  }
}
