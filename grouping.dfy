/**
 * Building the desired playlists (`generate_playlists`): every saved track is
 * appended to the list kept under its label, in library order.
 */
module Grouping {
  import opened Tracks
  import opened Labels

  /**
   * A Python dict from playlist name to tracks: `names` holds the keys in
   * insertion order, `members` the lists.
   */
  datatype Groups = Groups(names: seq<string>, members: map<string, seq<Track>>) {
    ghost predicate Valid() {
      && (forall i, j :: 0 <= i < j < |names| ==> names[i] != names[j])
      && (forall n :: n in members <==> n in names)
    }
  }

  /** The tracks of `ts` whose label is `l`, in library order. */
  function Select(ts: seq<Track>, g: Granularity, l: string): seq<Track> {
    if ts == [] then []
    else
      var last := ts[|ts| - 1];
      Select(ts[..|ts| - 1], g, l) + (if Label(last.addedAt, g) == l then [last] else [])
  }

  /** The distinct labels of `ts`, in order of first occurrence. */
  function FirstSeen(ts: seq<Track>, g: Granularity): seq<string> {
    if ts == [] then []
    else
      var seen := FirstSeen(ts[..|ts| - 1], g);
      var l := Label(ts[|ts| - 1].addedAt, g);
      if l in seen then seen else seen + [l]
  }

  /** The desired playlists of a library: one group per label, in order of first occurrence. */
  function Grouped(ts: seq<Track>, g: Granularity): (d: Groups)
    ensures d.Valid()
  {
    FirstSeenDistinct(ts, g);
    var names := FirstSeen(ts, g);
    Groups(names, map l | l in names :: Select(ts, g, l))
  }

  /** `p` is what one pass over `ts` has built: one group per label seen, holding that label's tracks. */
  ghost predicate Built(p: Groups, ts: seq<Track>, g: Granularity) {
    && p.Valid()
    && p.names == FirstSeen(ts, g)
    && (forall l :: l in p.members ==> p.members[l] == Select(ts, g, l))
    && (forall l :: l !in p.members ==> Select(ts, g, l) == [])
  }

  /**
   * `generate_playlists`: one pass over the library, appending each track to
   * the list of its label (`setdefault(name, []).append(track)`).
   */
  method GeneratePlaylists(tracks: seq<Track>, g: Granularity) returns (playlists: Groups)
    ensures playlists.Valid()
    ensures playlists == Grouped(tracks, g)
  {
    playlists := Groups([], map[]);
    for i := 0 to |tracks|
      invariant Built(playlists, tracks[..i], g)
    {
      var t := tracks[i];
      var name := Label(t.addedAt, g);
      ghost var before := playlists;
      if name in playlists.members {
        playlists := playlists.(members := playlists.members[name := playlists.members[name] + [t]]);
      } else {
        playlists := Groups(playlists.names + [name], playlists.members[name := [t]]);
      }
      BuiltStep(before, playlists, tracks[..i], g, t);
      PrefixSnoc(tracks, i);
    }
    BuiltIsGrouped(playlists, tracks, g);
  }

  /** What a whole pass has built is the grouping of the library. */
  lemma BuiltIsGrouped(p: Groups, ts: seq<Track>, g: Granularity)
    requires Built(p, ts[..|ts|], g)
    ensures p.Valid() && p == Grouped(ts, g)
  {
    assert ts[..|ts|] == ts;
    assert p.members == Grouped(ts, g).members;
  }

  /** Appending one track to the list of its label keeps `Built` for the library one track longer. */
  lemma BuiltStep(p: Groups, q: Groups, ts: seq<Track>, g: Granularity, t: Track)
    requires Built(p, ts, g)
    requires var name := Label(t.addedAt, g);
      q == if name in p.members then p.(members := p.members[name := p.members[name] + [t]])
           else Groups(p.names + [name], p.members[name := [t]])
    ensures Built(q, ts + [t], g)
  {
    var name := Label(t.addedAt, g);
    AppendedFirstSeen(ts, g, t);
    assert q.names == FirstSeen(ts + [t], g) by {
      assert name in p.members <==> name in p.names;
    }
    forall l | l in q.members ensures q.members[l] == Select(ts + [t], g, l) {
      AppendedSelect(ts, g, t, l);
    }
    forall l | l !in q.members ensures Select(ts + [t], g, l) == [] {
      AppendedSelect(ts, g, t, l);
    }
  }

  /** A prefix one longer is the shorter prefix and the next element. */
  lemma PrefixSnoc<T>(s: seq<T>, i: nat)
    requires i < |s|
    ensures s[..i + 1] == s[..i] + [s[i]]
  {
  }

  /** One more track extends the selection of its own label and of no other. */
  lemma AppendedSelect(ts: seq<Track>, g: Granularity, t: Track, l: string)
    ensures Select(ts + [t], g, l) == Select(ts, g, l) + (if Label(t.addedAt, g) == l then [t] else [])
  {
    assert (ts + [t])[..|ts|] == ts;
  }

  /** One more track adds its label to the keys when the label is new. */
  lemma AppendedFirstSeen(ts: seq<Track>, g: Granularity, t: Track)
    ensures FirstSeen(ts + [t], g)
         == FirstSeen(ts, g) + (if Label(t.addedAt, g) in FirstSeen(ts, g) then [] else [Label(t.addedAt, g)])
  {
    assert (ts + [t])[..|ts|] == ts;
  }

  /**
   * Every track is in exactly one group, the one of its own label: a track
   * is selected for `l` exactly when it is in the library and labelled `l`.
   */
  lemma {:induction false} SelectMembers(ts: seq<Track>, g: Granularity, l: string, t: Track)
    ensures t in Select(ts, g, l) <==> t in ts && Label(t.addedAt, g) == l
  {
    if ts != [] {
      var init := ts[..|ts| - 1];
      SelectMembers(init, g, l, t);
      assert ts == init + [ts[|ts| - 1]];
    }
  }

  /** Selection keeps library order: a newest-first library gives newest-first groups. */
  lemma {:induction false} SelectKeepsOrder(ts: seq<Track>, g: Granularity, l: string)
    requires NewestFirst(ts)
    ensures NewestFirst(Select(ts, g, l))
  {
    if ts != [] {
      var init := ts[..|ts| - 1];
      var last := ts[|ts| - 1];
      SelectKeepsOrder(init, g, l);
      var s := Select(init, g, l);
      if Label(last.addedAt, g) == l {
        var r := s + [last];
        forall i, j | 0 <= i < j < |r| ensures NotAfter(r[j].addedAt, r[i].addedAt) {
          if j == |s| {
            var x := s[i];
            SelectMembers(init, g, l, x);
            var k :| 0 <= k < |init| && init[k] == x;
            assert ts[k] == x && ts[|ts| - 1] == last;
          } else {
            assert r[i] == s[i] && r[j] == s[j];
          }
        }
        assert Select(ts, g, l) == r;
      }
    }
  }

  /** Some track of `ts` carries the label `l`. */
  ghost predicate Carries(ts: seq<Track>, g: Granularity, l: string) {
    exists i :: 0 <= i < |ts| && Label(ts[i].addedAt, g) == l
  }

  /** A library one track longer carries a label when the shorter one does or the new track has it. */
  lemma CarriesSnoc(ts: seq<Track>, g: Granularity, l: string)
    requires ts != []
    ensures Carries(ts, g, l) <==> Carries(ts[..|ts| - 1], g, l) || Label(ts[|ts| - 1].addedAt, g) == l
  {
    var init := ts[..|ts| - 1];
    if Carries(init, g, l) {
      var i :| 0 <= i < |init| && Label(init[i].addedAt, g) == l;
      assert ts[i] == init[i];
    }
    if Carries(ts, g, l) {
      var i :| 0 <= i < |ts| && Label(ts[i].addedAt, g) == l;
      if i < |init| { assert init[i] == ts[i]; }
    }
    if Label(ts[|ts| - 1].addedAt, g) == l {
      var i := |ts| - 1;
      assert 0 <= i < |ts| && Label(ts[i].addedAt, g) == l;
    }
  }

  /** A label is a key exactly when some track carries it, and then its group is not empty. */
  lemma {:induction false} FirstSeenLabels(ts: seq<Track>, g: Granularity, l: string)
    ensures l in FirstSeen(ts, g) <==> Carries(ts, g, l)
    ensures l in FirstSeen(ts, g) <==> Select(ts, g, l) != []
  {
    if ts != [] {
      FirstSeenLabels(ts[..|ts| - 1], g, l);
      CarriesSnoc(ts, g, l);
    }
  }

  /** The URIs of the tracks the groups named in `names` hold together, with multiplicity. */
  function GroupUris(names: seq<string>, ts: seq<Track>, g: Granularity): multiset<string> {
    if names == [] then multiset{}
    else GroupUris(names[..|names| - 1], ts, g) + multiset(Uris(Select(ts, g, names[|names| - 1])))
  }

  /** Appending one track adds its URI once to its own group and to no other. */
  lemma {:induction false} GroupUrisGrow(names: seq<string>, ts: seq<Track>, g: Granularity, t: Track)
    requires forall i, j :: 0 <= i < j < |names| ==> names[i] != names[j]
    ensures GroupUris(names, ts + [t], g)
         == GroupUris(names, ts, g) + (if Label(t.addedAt, g) in names then multiset{t.uri} else multiset{})
  {
    if names != [] {
      var init := names[..|names| - 1];
      var n := names[|names| - 1];
      var l := Label(t.addedAt, g);
      var inInit := if l in init then multiset{t.uri} else multiset{};
      var inOwn := if l == n then multiset{t.uri} else multiset{};
      assert (if l in names then multiset{t.uri} else multiset{}) == inInit + inOwn by {
        assert l in names <==> l in init || l == n;
        if l == n {
          assert l !in init;
        }
      }
      GroupUrisGrow(init, ts, g, t);
      OwnGroupGrow(ts, g, t, n);
      var before := GroupUris(init, ts, g);
      var own := multiset(Uris(Select(ts, g, n)));
      assert GroupUris(names, ts, g) == before + own;
      assert GroupUris(names, ts + [t], g)
          == GroupUris(init, ts + [t], g) + multiset(Uris(Select(ts + [t], g, n)));
      Regroup(before, own, inInit, inOwn);
    }
  }

  lemma Regroup<T>(a: multiset<T>, b: multiset<T>, c: multiset<T>, d: multiset<T>)
    ensures (a + c) + (b + d) == (a + b) + (c + d)
  {
  }

  /** One more track adds its URI to the group of its own label and leaves the others as they were. */
  lemma OwnGroupGrow(ts: seq<Track>, g: Granularity, t: Track, n: string)
    ensures multiset(Uris(Select(ts + [t], g, n)))
         == multiset(Uris(Select(ts, g, n))) + (if Label(t.addedAt, g) == n then multiset{t.uri} else multiset{})
  {
    AppendedSelect(ts, g, t, n);
    if Label(t.addedAt, g) == n {
      UrisSnoc(Select(ts, g, n), t);
      assert Uris(Select(ts + [t], g, n)) == Uris(Select(ts, g, n)) + [t.uri];
    } else {
      assert Select(ts + [t], g, n) == Select(ts, g, n) + [];
      assert Select(ts, g, n) + [] == Select(ts, g, n);
    }
  }

  /**
   * The groups partition the library: together they hold the URIs of the
   * saved tracks, each as often as it is saved, so no track is lost or
   * counted twice.
   */
  lemma {:induction false} GroupsPartition(ts: seq<Track>, g: Granularity)
    ensures GroupUris(FirstSeen(ts, g), ts, g) == multiset(Uris(ts))
  {
    if ts != [] {
      var init := ts[..|ts| - 1];
      var t := ts[|ts| - 1];
      assert ts == init + [t];
      GroupsPartition(init, g);
      UrisSnoc(init, t);
      FirstSeenDistinct(init, g);
      GroupUrisGrow(FirstSeen(init, g), init, g, t);
      if Label(t.addedAt, g) !in FirstSeen(init, g) {
        NewLabelGroup(init, g, t);
      }
    }
  }

  /** A track with a label not seen before opens a group holding just that track. */
  lemma NewLabelGroup(init: seq<Track>, g: Granularity, t: Track)
    requires Label(t.addedAt, g) !in FirstSeen(init, g)
    ensures var seen := FirstSeen(init, g);
      GroupUris(seen + [Label(t.addedAt, g)], init + [t], g) == GroupUris(seen, init + [t], g) + multiset{t.uri}
  {
    var seen := FirstSeen(init, g);
    var l := Label(t.addedAt, g);
    assert Select(init + [t], g, l) == [t] by {
      FirstSeenLabels(init, g, l);
      AppendedSelect(init, g, t, l);
    }
    assert multiset(Uris(Select(init + [t], g, l))) == multiset{t.uri} by {
      assert Uris([t]) == [t.uri];
    }
    assert (seen + [l])[..|seen|] == seen;
  }

  /** No label is listed twice. */
  lemma {:induction false} FirstSeenDistinct(ts: seq<Track>, g: Granularity)
    ensures forall i, j :: 0 <= i < j < |FirstSeen(ts, g)| ==> FirstSeen(ts, g)[i] != FirstSeen(ts, g)[j]
  {
    if ts != [] {
      FirstSeenDistinct(ts[..|ts| - 1], g);
    }
  }
}
