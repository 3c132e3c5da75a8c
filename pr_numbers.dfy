/** Request numbers "PR-00001", "PR-00002", … : one sequence per organisation, unique within it. */
module RequestNumbers {
  import opened Errors
  import opened Digits
  import opened PurchaseRequestModels

  /** `f"PR-{n:05d}"`. */
  function RequestNumber(n: nat): (s: string)
    ensures |s| >= 8 && s[..3] == "PR-"
  {
    "PR-" + ZeroPad(Decimal(n), 5)
  }

  /** The number a request number carries, if it has the "PR-<digits>" shape. */
  function ParseRequestNumber(s: string): Option<nat>
  {
    if |s| >= 4 && s[..3] == "PR-" && AllDigits(s[3..]) then Some(Value(s[3..])) else None
  }

  /** Reading back a formatted request number gives the number. */
  lemma ParseRequestNumberRoundTrip(n: nat)
    ensures ParseRequestNumber(RequestNumber(n)) == Some(n)
  {
    var digits := ZeroPad(Decimal(n), 5);
    ValueOfZeroPad(Decimal(n), 5);
    ValueOfDecimal(n);
    assert RequestNumber(n)[3..] == digits;
  }

  /** Distinct numbers are formatted as distinct request numbers. */
  lemma RequestNumberInjective(m: nat, n: nat)
    requires RequestNumber(m) == RequestNumber(n)
    ensures m == n
  {
    ParseRequestNumberRoundTrip(m);
    ParseRequestNumberRoundTrip(n);
  }

  /** The requests of one organisation, in table order. */
  function OrgRequests(rs: seq<PurchaseRequest>, org: nat): (own: seq<PurchaseRequest>)
    ensures forall r :: r in own <==> r in rs && r.org == org
    ensures |own| <= |rs|
  {
    if rs == [] then []
    else
      var front := OrgRequests(rs[..|rs| - 1], org);
      var last := rs[|rs| - 1];
      assert rs == rs[..|rs| - 1] + [last];
      if last.org == org then front + [last] else front
  }

  /** `_next_request_number` as written: the organisation's row count plus one. */
  function CountBasedNumber(rs: seq<PurchaseRequest>, org: nat): (s: string)
    ensures ParseRequestNumber(s) == Some(|OrgRequests(rs, org)| + 1)
  {
    var n := |OrgRequests(rs, org)| + 1;
    ParseRequestNumberRoundTrip(n);
    RequestNumber(n)
  }

  /** The largest number carried by any of the requests (0 when none carries one). */
  function Highest(rs: seq<PurchaseRequest>): (h: nat)
    ensures forall r :: r in rs && ParseRequestNumber(r.requestNumber).Some? ==>
      ParseRequestNumber(r.requestNumber).value <= h
  {
    if rs == [] then 0
    else
      var front := Highest(rs[..|rs| - 1]);
      var last := ParseRequestNumber(rs[|rs| - 1].requestNumber);
      assert rs == rs[..|rs| - 1] + [rs[|rs| - 1]];
      if last.Some? && last.value > front then last.value else front
  }

  /** The corrected numbering: one past the highest number the organisation has used. */
  function NextRequestNumber(rs: seq<PurchaseRequest>, org: nat): (s: string)
    ensures ParseRequestNumber(s) == Some(Highest(OrgRequests(rs, org)) + 1)
  {
    var n := Highest(OrgRequests(rs, org)) + 1;
    ParseRequestNumberRoundTrip(n);
    RequestNumber(n)
  }

  /** The corrected number is never held by a request of the same organisation, whatever
      rows have been deleted before. */
  lemma NextRequestNumberIsFresh(rs: seq<PurchaseRequest>, org: nat)
    ensures forall r :: r in rs && r.org == org ==> r.requestNumber != NextRequestNumber(rs, org)
  {
    var own := OrgRequests(rs, org);
    forall r | r in rs && r.org == org
      ensures r.requestNumber != NextRequestNumber(rs, org)
    {
      assert r in own;
    }
  }

  /** A request alone in its table is its organisation's only request, and its number is the
      highest. */
  lemma OneRequest(b: PurchaseRequest, n: nat)
    requires b.requestNumber == RequestNumber(n)
    ensures OrgRequests([b], b.org) == [b]
    ensures Highest([b]) == n
  {
    assert [b][..0] == [];
    assert OrgRequests([b][..0], b.org) == [];
    assert Highest([b][..0]) == 0;
    ParseRequestNumberRoundTrip(n);
  }

  lemma {:induction false} NoOrgRequests(rs: seq<PurchaseRequest>, org: nat)
    requires forall r :: r in rs ==> r.org != org
    ensures OrgRequests(rs, org) == []
  {
    if rs != [] {
      assert rs[|rs| - 1] in rs;
      assert forall r :: r in rs[..|rs| - 1] ==> r in rs;
      NoOrgRequests(rs[..|rs| - 1], org);
    }
  }

  /** An organisation's first request gets number 1 under either numbering. */
  lemma FirstRequestNumber(rs: seq<PurchaseRequest>, org: nat)
    requires forall r :: r in rs ==> r.org != org
    ensures ParseRequestNumber(NextRequestNumber(rs, org)) == Some(1)
    ensures ParseRequestNumber(CountBasedNumber(rs, org)) == Some(1)
  {
    NoOrgRequests(rs, org);
  }

  /** The first number is written PR-00001. */
  lemma RequestNumberOne()
    ensures RequestNumber(1) == "PR-00001"
  {
    var d := Decimal(1);
    assert d == "1";
    var z := ZeroPad(d, 5);
    assert |z| == 5 && z[4..] == d;
    assert z[4] == '1';
    assert z[0] == '0' && z[1] == '0' && z[2] == '0' && z[3] == '0';
    assert z == "00001";
  }

  /** Numbers 1, 2, …, n in table order: what creation alone produces. */
  ghost predicate Dense(own: seq<PurchaseRequest>)
  {
    forall i :: 0 <= i < |own| ==> ParseRequestNumber(own[i].requestNumber) == Some(i + 1)
  }

  /** In a dense numbering the highest number is the count. */
  lemma {:induction false} HighestOfDense(own: seq<PurchaseRequest>)
    requires Dense(own)
    ensures Highest(own) == |own|
  {
    if own != [] {
      var front := own[..|own| - 1];
      assert Dense(front);
      HighestOfDense(front);
    }
  }

  /** While no request of the organisation has been deleted the two numberings agree. */
  lemma CountBasedAgreesWhileDense(rs: seq<PurchaseRequest>, org: nat)
    requires Dense(OrgRequests(rs, org))
    ensures NextRequestNumber(rs, org) == CountBasedNumber(rs, org)
  {
    HighestOfDense(OrgRequests(rs, org));
  }

  /** Appending the corrected next number keeps a dense numbering dense. */
  lemma NextKeepsDense(rs: seq<PurchaseRequest>, r: PurchaseRequest)
    requires Dense(OrgRequests(rs, r.org))
    requires r.requestNumber == NextRequestNumber(rs, r.org)
    ensures Dense(OrgRequests(rs + [r], r.org))
  {
    var own := OrgRequests(rs, r.org);
    HighestOfDense(own);
    assert ParseRequestNumber(r.requestNumber) == Some(|own| + 1);
    OrgRequestsAppend(rs, r);
    var own' := own + [r];
    forall i | 0 <= i < |own'| ensures ParseRequestNumber(own'[i].requestNumber) == Some(i + 1) {
      if i < |own| {
        assert own'[i] == own[i];
      }
    }
  }

  /** A new row of the organisation goes to the end of its requests. */
  lemma OrgRequestsAppend(rs: seq<PurchaseRequest>, r: PurchaseRequest)
    ensures OrgRequests(rs + [r], r.org) == OrgRequests(rs, r.org) + [r]
  {
    assert (rs + [r])[..|rs|] == rs;
  }
}
