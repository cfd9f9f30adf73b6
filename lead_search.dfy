/**
  The free-text search over the loaded leads on the admin "Landing Page Leads"
  page: a lead is shown when the search term occurs, ignoring case, in its name,
  e-mail or project, or occurs verbatim in its phone number.
 */
module LeadSearch {
  import opened Wrappers
  import opened JsStrings
  import opened Sequences

  /** A lead record as the server returns it. `project` and `specialEnquiry`
      may be missing; the other fields are always strings. */
  datatype Enquiry = Enquiry(
    id: string,
    name: string,
    email: string,
    phone: string,
    project: Option<string>,
    specialEnquiry: Option<string>,
    status: string,
    createdAt: string)

  /** `enq.project && enq.project.toLowerCase().includes(term.toLowerCase())`:
      a missing or empty project is falsy and never matches. */
  predicate ProjectMatches(project: Option<string>, term: string): (m: bool)
    ensures m ==> project.Some? && project.value != "" && |term| <= |project.value|
  {
    project.Some? && project.value != "" && Includes(Lower(project.value), Lower(term))
  }

  /** The callback passed to `enquiries.filter`. */
  predicate Matches(e: Enquiry, term: string): (m: bool)
    ensures term == "" ==> m
    ensures m ==> |term| <= |e.name| || |term| <= |e.email| || |term| <= |e.phone| ||
                  (e.project.Some? && |term| <= |e.project.value|)
  {
    || Includes(Lower(e.name), Lower(term))
    || Includes(Lower(e.email), Lower(term))
    || Includes(e.phone, term)
    || ProjectMatches(e.project, term)
  }

  /** `filteredEnquiries`: the leads that match, in their original order. */
  function Filter(s: seq<Enquiry>, term: string): (r: seq<Enquiry>)
    ensures |r| <= |s|
    ensures forall e :: e in r ==> e in s && Matches(e, term)
  {
    if s == [] then []
    else (if Matches(s[0], term) then [s[0]] else []) + Filter(s[1..], term)
  }

  /** The match rule stated through substring positions: the lower-cased term
      occurs in the lower-cased name, e-mail or (present, non-empty) project,
      or the raw term occurs in the raw phone. */
  lemma MatchesIff(e: Enquiry, term: string)
    ensures Matches(e, term) <==>
      || Occurs(Lower(e.name), Lower(term))
      || Occurs(Lower(e.email), Lower(term))
      || Occurs(e.phone, term)
      || (e.project.Some? && e.project.value != "" && Occurs(Lower(e.project.value), Lower(term)))
  {
    IncludesIffOccurs(Lower(e.name), Lower(term));
    IncludesIffOccurs(Lower(e.email), Lower(term));
    IncludesIffOccurs(e.phone, term);
    if e.project.Some? {
      IncludesIffOccurs(Lower(e.project.value), Lower(term));
    }
  }

  /** A missing or empty project never makes a lead match. */
  lemma MissingProjectNeverMatches(e: Enquiry, term: string)
    requires e.project == None || e.project == Some("")
    ensures Matches(e, term) <==>
      Includes(Lower(e.name), Lower(term)) || Includes(Lower(e.email), Lower(term)) ||
      Includes(e.phone, term)
  {
  }

  /** A lead is shown exactly when it was loaded and matches the term. */
  lemma {:induction false} FilterMembership(s: seq<Enquiry>, term: string, e: Enquiry)
    ensures e in Filter(s, term) <==> e in s && Matches(e, term)
  {
    if s != [] {
      FilterMembership(s[1..], term, e);
      assert e in s <==> e == s[0] || e in s[1..];
    }
  }

  /** Nothing is shown exactly when no loaded lead matches. */
  lemma FilterEmptyIff(s: seq<Enquiry>, term: string)
    ensures Filter(s, term) == [] <==> forall e :: e in s ==> !Matches(e, term)
  {
    forall e {
      FilterMembership(s, term, e);
    }
  }

  /** The shown leads are the loaded leads with some removed, the rest in order. */
  lemma {:induction false} FilterIsSubsequence(s: seq<Enquiry>, term: string)
    ensures IsSubsequence(Filter(s, term), s)
  {
    if s != [] {
      FilterIsSubsequence(s[1..], term);
      var rest := Filter(s[1..], term);
      if Matches(s[0], term) {
        assert Filter(s, term) == [s[0]] + rest;
        assert ([s[0]] + rest)[1..] == rest;
      } else {
        assert Filter(s, term) == rest;
      }
    }
  }

  /** Positions from `from` on whose leads match, in increasing order. */
  function KeptPositions(s: seq<Enquiry>, term: string, from: nat): (idx: seq<nat>)
    requires from <= |s|
    ensures forall k :: 0 <= k < |idx| ==> from <= idx[k] < |s| && Matches(s[idx[k]], term)
    ensures forall k, l :: 0 <= k < l < |idx| ==> idx[k] < idx[l]
    ensures forall i :: from <= i < |s| && Matches(s[i], term) ==> i in idx
    decreases |s| - from
  {
    if from == |s| then []
    else (if Matches(s[from], term) then [from] else []) + KeptPositions(s, term, from + 1)
  }

  /** The k-th shown lead is the loaded lead at the k-th kept position: the
      filter keeps exactly the matching leads and does not reorder them. */
  lemma {:induction false} FilterSelectsKeptPositions(s: seq<Enquiry>, term: string, from: nat)
    requires from <= |s|
    ensures |Filter(s[from..], term)| == |KeptPositions(s, term, from)|
    ensures forall k :: 0 <= k < |Filter(s[from..], term)| ==>
      Filter(s[from..], term)[k] == s[KeptPositions(s, term, from)[k]]
    decreases |s| - from
  {
    if from < |s| {
      FilterSelectsKeptPositions(s, term, from + 1);
      var t := s[from..];
      assert t[0] == s[from] && t[1..] == s[from + 1..];
      var f, f' := Filter(t, term), Filter(s[from + 1..], term);
      var k, k' := KeptPositions(s, term, from), KeptPositions(s, term, from + 1);
      if Matches(s[from], term) {
        assert f == [s[from]] + f';
        assert k == [from] + k';
        forall j | 0 < j < |f| ensures f[j] == s[k[j]] {
          assert f[j] == f'[j - 1] && k[j] == k'[j - 1];
        }
      } else {
        assert f == f' && k == k';
      }
    }
  }

  /** An empty search box shows every loaded lead. */
  lemma {:induction false} FilterEmptyTerm(s: seq<Enquiry>)
    ensures Filter(s, "") == s
  {
    if s != [] {
      assert Lower("") == "";
      assert Matches(s[0], "");
      FilterEmptyTerm(s[1..]);
    }
  }

  /** Searching the shown leads again with the same term changes nothing. */
  lemma {:induction false} FilterIdempotent(s: seq<Enquiry>, term: string)
    ensures Filter(Filter(s, term), term) == Filter(s, term)
  {
    if s != [] {
      FilterIdempotent(s[1..], term);
      var rest := Filter(s[1..], term);
      if Matches(s[0], term) {
        var r := [s[0]] + rest;
        assert Filter(s, term) == r;
        assert r[0] == s[0] && r[1..] == rest;
        assert Filter(r, term) == [s[0]] + Filter(rest, term);
      } else {
        assert Filter(s, term) == rest;
      }
    }
  }

  /** Search ignores the case of the name: "amit" finds any lead named "Amit". */
  lemma NameSearchExample(e: Enquiry)
    requires e.name == "Amit"
    ensures Matches(e, "amit")
  {
  }

  /** Search ignores the case of the term and of the e-mail: "AMIT" finds any
      lead whose e-mail is "x@Amit.com". */
  lemma EmailSearchExample(e: Enquiry)
    requires e.email == "x@Amit.com"
    ensures Matches(e, "AMIT")
  {
    var mail, term := e.email, "AMIT";
    LowerAt(term, 0);
    LowerAt(term, 1);
    LowerAt(term, 2);
    LowerAt(term, 3);
    LowerAt(mail, 2);
    LowerAt(mail, 3);
    LowerAt(mail, 4);
    LowerAt(mail, 5);
    assert Lower(mail)[2..6] == Lower(term);
    assert OccursAt(Lower(mail), Lower(term), 2);
    IncludesIffOccurs(Lower(mail), Lower(term));
  }
}
