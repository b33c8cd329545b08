/**
 * The values the script handles: a saved track is its URI and the time it
 * was saved, already parsed into a calendar year and month.
 */
module Tracks {

  /** An already-parsed "added at" time; `month` is 1..12 for any parsed date. */
  datatype Timestamp = Timestamp(year: nat, month: nat) {
    predicate Valid() { 1 <= month <= 12 }
  }

  /** One item of the saved-tracks collection: `track.uri` and `added_at`. */
  datatype Track = Track(uri: string, addedAt: Timestamp)

  /** The URIs of `ts`, position by position. */
  function Uris(ts: seq<Track>): seq<string> {
    seq(|ts|, i requires 0 <= i < |ts| => ts[i].uri)
  }

  /** `s` read back to front (Python's `list.reverse()`). */
  function Reversed<T>(s: seq<T>): seq<T> {
    seq(|s|, i requires 0 <= i < |s| => s[|s| - 1 - i])
  }

  /** `a` was saved no later than `b`. */
  predicate NotAfter(a: Timestamp, b: Timestamp) {
    a.year < b.year || (a.year == b.year && a.month <= b.month)
  }

  /** Most recently saved first: the order the saved-tracks collection is served in. */
  predicate NewestFirst(ts: seq<Track>) {
    forall i, j :: 0 <= i < j < |ts| ==> NotAfter(ts[j].addedAt, ts[i].addedAt)
  }

  /** Oldest first: chronological order. */
  predicate OldestFirst(ts: seq<Track>) {
    forall i, j :: 0 <= i < j < |ts| ==> NotAfter(ts[i].addedAt, ts[j].addedAt)
  }

  /** Concatenation is associative. */
  lemma Associative<T>(a: seq<T>, b: seq<T>, c: seq<T>)
    ensures a + b + c == a + (b + c)
  {
  }

  /** Reversal reorders and nothing else: every element keeps its multiplicity. */
  lemma {:induction false} ReversedMultiset<T>(s: seq<T>)
    ensures multiset(Reversed(s)) == multiset(s)
    decreases |s|
  {
    if s != [] {
      var init := s[..|s| - 1];
      ReversedMultiset(init);
      assert Reversed(s) == [s[|s| - 1]] + Reversed(init);
      assert s == init + [s[|s| - 1]];
    }
  }

  /** The URIs of a list one track longer end with that track's URI. */
  /** Reversing the tracks reverses their URIs. */
  lemma ReversedUris(ts: seq<Track>)
    ensures Reversed(Uris(ts)) == Uris(Reversed(ts))
  {
  }

  lemma UrisSnoc(ts: seq<Track>, t: Track)
    ensures Uris(ts + [t]) == Uris(ts) + [t.uri]
  {
  }

  lemma ReversedMembers<T>(s: seq<T>)
    ensures |Reversed(s)| == |s|
    ensures forall x :: x in Reversed(s) <==> x in s
  {
    forall x | x in s ensures x in Reversed(s) {
      var i :| 0 <= i < |s| && s[i] == x;
      assert Reversed(s)[|s| - 1 - i] == x;
    }
  }

  /** Reading a newest-first list back to front gives the oldest-first order. */
  lemma ReversedNewestIsOldest(ts: seq<Track>)
    requires NewestFirst(ts)
    ensures OldestFirst(Reversed(ts))
  {
    var r := Reversed(ts);
    forall i, j | 0 <= i < j < |r| ensures NotAfter(r[i].addedAt, r[j].addedAt) {
      assert r[i] == ts[|ts| - 1 - i] && r[j] == ts[|ts| - 1 - j];
    }
  }
}
