/** The upload log of `YouTubeUploader`: the set of video paths already
    uploaded, decoded from and encoded to a JSON list. */
module Ledger {
  import opened Wrappers
  import opened Files

  predicate NoDuplicates<T(==)>(s: seq<T>)
  {
    forall i, j :: 0 <= i < j < |s| ==> s[i] != s[j]
  }

  /** `set(entries)`: the set holding exactly the listed paths; a list with
      repeated paths still gives every one of them. */
  function ElementsOf(entries: seq<string>): (r: set<string>)
    ensures forall x :: x in r <==> x in entries
    ensures |r| <= |entries|
    ensures NoDuplicates(entries) ==> |r| == |entries|
  {
    if entries == [] then {}
    else
      assert NoDuplicates(entries) ==> NoDuplicates(entries[1..]) && entries[0] !in entries[1..];
      {entries[0]} + ElementsOf(entries[1..])
  }

  /** `entries` is a possible value of `list(s)`: every member of `s` once,
      in some order. */
  ghost predicate IsListing(entries: seq<string>, s: set<string>)
  {
    NoDuplicates(entries) && forall x :: x in entries <==> x in s
  }

  /** `_load_uploaded_videos`: a missing log is the empty ledger; a log that
      does not decode raises, the exception is not caught. */
  function LoadUploadedVideos(log: LogFile): (r: Result<set<string>, Error>)
    ensures r.Failure? <==> log.Unparseable?
    ensures r.Failure? ==> r.error == LogNotParseable
    ensures log.Missing? ==> r == Success({})
    ensures log.Listing? ==> forall x :: x in r.value <==> x in log.entries
  {
    match log
    case Missing => Success({})
    case Unparseable => Failure(LogNotParseable)
    case Listing(entries) => Success(ElementsOf(entries))
  }

  /** `list(s)`: iterates over the set in an order the model leaves open. */
  method ListOf(s: set<string>) returns (entries: seq<string>)
    ensures IsListing(entries, s)
    ensures |entries| == |s|
  {
    entries := [];
    var rest := s;
    while rest != {}
      invariant rest <= s
      invariant NoDuplicates(entries)
      invariant forall x :: x in entries <==> x in s && x !in rest
      invariant |entries| + |rest| == |s|
      decreases |rest|
    {
      var x :| x in rest;
      entries := entries + [x];
      rest := rest - {x};
    }
  }

  /** Whatever order `list(...)` picks, loading the written log gives back the
      ledger that was saved. */
  lemma SaveLoadRoundTrip(entries: seq<string>, s: set<string>)
    requires IsListing(entries, s)
    ensures LoadUploadedVideos(Listing(entries)) == Success(s)
    ensures |entries| == |s|
  {
    assert ElementsOf(entries) == s;
  }

  /** A log written by a save holds each path once: it is as long as the
      ledger, and its entries are pairwise distinct. */
  lemma {:induction false} ListingIsUnique(e1: seq<string>, e2: seq<string>, s: set<string>)
    requires IsListing(e1, s) && IsListing(e2, s)
    ensures |e1| == |e2| == |s|
    ensures multiset(e1) == multiset(e2)
  {
    SaveLoadRoundTrip(e1, s);
    SaveLoadRoundTrip(e2, s);
    MultisetOfListing(e1, s);
    MultisetOfListing(e2, s);
  }

  lemma MultisetOfListing(e: seq<string>, s: set<string>)
    requires IsListing(e, s)
    ensures forall x :: multiset(e)[x] == if x in s then 1 else 0
  {
    forall x ensures multiset(e)[x] == if x in s then 1 else 0 {
      CountOfDistinct(e, x);
    }
  }

  lemma {:induction false} CountOfDistinct(e: seq<string>, x: string)
    requires NoDuplicates(e)
    ensures multiset(e)[x] == if x in e then 1 else 0
  {
    if e != [] {
      assert e == [e[0]] + e[1..];
      assert NoDuplicates(e[1..]);
      CountOfDistinct(e[1..], x);
      assert e[0] !in e[1..];
    }
  }
}
