/**
 * Reconciliation (`playlists_filter_existing`): which desired playlists must
 * be created, which tracks each playlist still lacks, and the ids of the
 * playlists that already exist. The user's playlists and their track
 * listings are given as values instead of being fetched.
 */
module Reconcile {
  import opened Wrappers
  import opened Tracks
  import opened Grouping

  /** The id used when a playlist object carries none. */
  const UnknownPlaylistId: string := "unknown-playlist-id"

  /** One of the user's playlists: its name, its id if the listing has one, and the URIs of the tracks it holds. */
  datatype Existing = Existing(name: string, id: Option<string>, trackUris: seq<string>)

  /** `user_playlists_by_name`: later playlists overwrite earlier ones of the same name. */
  function IndexByName(ps: seq<Existing>): (index: map<string, Existing>)
    ensures forall n :: n in index ==> index[n].name == n
  {
    if ps == [] then map[]
    else IndexByName(ps[..|ps| - 1])[ps[|ps| - 1].name := ps[|ps| - 1]]
  }

  /** The tracks of `desired` whose URI is not among `present`, in desired order. */
  function Missing(desired: seq<Track>, present: seq<string>): (m: seq<Track>)
    ensures |m| <= |desired|
  {
    if desired == [] then []
    else
      var last := desired[|desired| - 1];
      Missing(desired[..|desired| - 1], present) + (if last.uri in present then [] else [last])
  }

  /** The names of `names` that no existing playlist has, in order. */
  function Absent(names: seq<string>, index: map<string, Existing>): seq<string> {
    if names == [] then []
    else
      var last := names[|names| - 1];
      Absent(names[..|names| - 1], index) + (if last in index then [] else [last])
  }

  /** The three results of `playlists_filter_existing`. */
  datatype Plan = Plan(toCreate: seq<string>, toAdd: map<string, seq<Track>>, ids: map<string, string>)

  /**
   * For each desired name that asks for tracks, the tracks it asks for: all
   * of them for a new playlist, else those the existing playlist lacks.
   */
  function Wants(desired: map<string, seq<Track>>, index: map<string, Existing>): map<string, seq<Track>> {
    map n | n in desired && (n !in index || Missing(desired[n], index[n].trackUris) != [])
      :: if n in index then Missing(desired[n], index[n].trackUris) else desired[n]
  }

  /** For each desired name an existing playlist has, that playlist's id, or the sentinel. */
  function KnownIds(desired: map<string, seq<Track>>, index: map<string, Existing>): map<string, string> {
    map n | n in desired && n in index :: index[n].id.GetOr(UnknownPlaylistId)
  }

  /** The entries of `m` under the names of `done`. */
  function Restrict<V>(m: map<string, V>, done: seq<string>): map<string, V> {
    map n | n in done && n in m :: m[n]
  }

  /** What the reconciliation has decided once it has looked at the desired names in `done`. */
  function PlanFor(desired: map<string, seq<Track>>, index: map<string, Existing>, done: seq<string>): Plan {
    Plan(Absent(done, index), Restrict(Wants(desired, index), done), Restrict(KnownIds(desired, index), done))
  }

  /** The reconciliation of the desired playlists against the user's playlists, indexed by name. */
  function ReconcileIndex(d: Groups, index: map<string, Existing>): Plan {
    PlanFor(d.members, index, d.names)
  }

  /** The reconciliation of the desired playlists against the user's playlist list. */
  function Reconciliation(d: Groups, existing: seq<Existing>): Plan {
    ReconcileIndex(d, IndexByName(existing))
  }

  /**
   * `playlists_filter_existing`: index the user's playlists by name, then
   * for each desired name in turn either mark it for creation with all its
   * tracks, or record the existing id and append each desired track whose
   * URI the playlist's listing lacks.
   */
  method PlaylistsFilterExisting(playlists: Groups, userPlaylists: seq<Existing>)
    returns (toCreate: seq<string>, toAdd: map<string, seq<Track>>, ids: map<string, string>)
    requires playlists.Valid()
    ensures Plan(toCreate, toAdd, ids) == Reconciliation(playlists, userPlaylists)
  {
    var byName := IndexUserPlaylists(userPlaylists);
    var names := playlists.names;
    toCreate, toAdd, ids := [], map[], map[];
    for i := 0 to |names|
      invariant Plan(toCreate, toAdd, ids) == PlanFor(playlists.members, byName, names[..i])
    {
      var p := names[i];
      NextName(playlists, byName, i);
      PlanForStep(playlists.members, byName, names[..i], p);
      ghost var next := PlanFor(playlists.members, byName, names[..i + 1]);
      if p !in byName {
        toCreate := toCreate + [p];
        toAdd := toAdd[p := playlists.members[p]];
        assert toCreate == next.toCreate && toAdd == next.toAdd && ids == next.ids;
      } else {
        ids := ids[p := byName[p].id.GetOr(UnknownPlaylistId)];
        ghost var missing := Missing(playlists.members[p], byName[p].trackUris);
        assert [] + missing == missing;
        toAdd := AppendMissing(toAdd, p, playlists.members[p], byName[p].trackUris);
        assert toCreate == next.toCreate && toAdd == next.toAdd && ids == next.ids;
      }
    }
    assert names[..|names|] == names;
  }

  /** The loop filling `user_playlists_by_name`, one playlist at a time. */
  method IndexUserPlaylists(userPlaylists: seq<Existing>) returns (byName: map<string, Existing>)
    ensures byName == IndexByName(userPlaylists)
  {
    byName := map[];
    for i := 0 to |userPlaylists|
      invariant byName == IndexByName(userPlaylists[..i])
    {
      assert userPlaylists[..i + 1][..i] == userPlaylists[..i];
      byName := byName[userPlaylists[i].name := userPlaylists[i]];
    }
    assert userPlaylists[..|userPlaylists|] == userPlaylists;
  }

  /**
   * The inner loop of `playlists_filter_existing`: each desired track whose
   * URI is not in `present` is appended to the list under `p`, which is
   * created on the first such track (`setdefault(p, []).append(t)`).
   */
  method AppendMissing(toAdd: map<string, seq<Track>>, p: string, desired: seq<Track>, present: seq<string>)
    returns (updated: map<string, seq<Track>>)
    ensures Missing(desired, present) == [] ==> updated == toAdd
    ensures Missing(desired, present) != [] ==>
      updated == toAdd[p := (if p in toAdd then toAdd[p] else []) + Missing(desired, present)]
  {
    updated := toAdd;
    var start := if p in toAdd then toAdd[p] else [];
    ghost var sofar: seq<Track> := [];
    for j := 0 to |desired|
      invariant sofar == Missing(desired[..j], present)
      invariant sofar == [] ==> updated == toAdd
      invariant sofar != [] ==> updated == toAdd[p := start + sofar]
    {
      MissingStep(desired, j, present);
      if desired[j].uri !in present {
        AppendOne(toAdd, p, start, sofar, updated, desired[j]);
        updated := updated[p := (if p in updated then updated[p] else []) + [desired[j]]];
        sofar := sofar + [desired[j]];
      } else {
        assert sofar + [] == sofar;
      }
    }
    assert desired[..|desired|] == desired;
  }

  /** One `append` under `p`: the list there, or a fresh one, grows by `t`. */
  lemma AppendOne(toAdd: map<string, seq<Track>>, p: string, start: seq<Track>, sofar: seq<Track>,
                  updated: map<string, seq<Track>>, t: Track)
    requires start == (if p in toAdd then toAdd[p] else [])
    requires sofar == [] ==> updated == toAdd
    requires sofar != [] ==> updated == toAdd[p := start + sofar]
    ensures updated[p := (if p in updated then updated[p] else []) + [t]] == toAdd[p := start + (sofar + [t])]
  {
    assert (if p in updated then updated[p] else []) == start + sofar;
    Associative(start, sofar, [t]);
  }

  /** The i-th desired name is a key, has not been looked at yet, and extends the names looked at by one. */
  lemma NextName(playlists: Groups, index: map<string, Existing>, i: nat)
    requires playlists.Valid() && i < |playlists.names|
    ensures var p := playlists.names[i];
      && p in playlists.members
      && p !in playlists.names[..i]
      && p !in PlanFor(playlists.members, index, playlists.names[..i]).toAdd
      && playlists.names[..i + 1] == playlists.names[..i] + [p]
  {
  }

  lemma MissingAppend(desired: seq<Track>, present: seq<string>, t: Track)
    ensures Missing(desired + [t], present) == Missing(desired, present) + (if t.uri in present then [] else [t])
  {
    assert (desired + [t])[..|desired|] == desired;
  }

  /** The missing tracks of a prefix one longer: those of the shorter prefix, and the next track if missing. */
  lemma MissingStep(desired: seq<Track>, j: nat, present: seq<string>)
    requires j < |desired|
    ensures Missing(desired[..j + 1], present)
         == Missing(desired[..j], present) + (if desired[j].uri in present then [] else [desired[j]])
  {
    assert desired[..j + 1] == desired[..j] + [desired[j]];
    MissingAppend(desired[..j], present, desired[j]);
  }

  /** Looking at one more desired name changes the plan only at that name. */
  lemma PlanForStep(desired: map<string, seq<Track>>, index: map<string, Existing>, done: seq<string>, p: string)
    requires p !in done && p in desired
    ensures var before := PlanFor(desired, index, done);
      var after := PlanFor(desired, index, done + [p]);
      && after.toCreate == before.toCreate + (if p in index then [] else [p])
      && after.ids == (if p in index then before.ids[p := index[p].id.GetOr(UnknownPlaylistId)] else before.ids)
      && after.toAdd == (if p !in index then before.toAdd[p := desired[p]]
                         else if Missing(desired[p], index[p].trackUris) == [] then before.toAdd
                         else before.toAdd[p := Missing(desired[p], index[p].trackUris)])
  {
    assert (done + [p])[..|done|] == done;
    RestrictSnoc(Wants(desired, index), done, p);
    RestrictSnoc(KnownIds(desired, index), done, p);
  }

  /** Restricting to one name more adds that name's entry, if it has one. */
  lemma RestrictSnoc<V>(m: map<string, V>, done: seq<string>, p: string)
    ensures Restrict(m, done + [p]) == if p in m then Restrict(m, done)[p := m[p]] else Restrict(m, done)
  {
    forall n ensures n in done + [p] <==> n in done || n == p { }
  }
}

module ReconcileProperties {
  import opened Wrappers
  import opened Tracks
  import opened Grouping
  import opened Reconcile

  /**
   * The name index is last-write-wins: a name is a key exactly when some
   * playlist has it, and it maps to the last playlist of that name.
   */
  lemma {:induction false} LastWriteWins(ps: seq<Existing>, name: string)
    ensures name in IndexByName(ps) <==> exists i :: 0 <= i < |ps| && ps[i].name == name
    ensures name in IndexByName(ps) ==>
      exists i :: 0 <= i < |ps| && ps[i].name == name && IndexByName(ps)[name] == ps[i]
                  && forall j :: i < j < |ps| ==> ps[j].name != name
  {
    IndexedNames(ps, name);
    if ps != [] {
      var init := ps[..|ps| - 1];
      var last := |ps| - 1;
      if ps[last].name == name {
        assert IndexByName(ps)[name] == ps[last];
      } else {
        LastWriteWins(init, name);
        if name in IndexByName(init) {
          var i :| 0 <= i < |init| && init[i].name == name && IndexByName(init)[name] == init[i]
                   && forall j :: i < j < |init| ==> init[j].name != name;
          assert ps[i] == init[i];
          assert IndexByName(ps)[name] == init[i];
          forall j | i < j < |ps| ensures ps[j].name != name {
            if j < last { assert ps[j] == init[j]; }
          }
        }
      }
    }
  }

  /** A name is indexed exactly when some existing playlist has it. */
  lemma {:induction false} IndexedNames(ps: seq<Existing>, name: string)
    ensures name in IndexByName(ps) <==> exists i :: 0 <= i < |ps| && ps[i].name == name
  {
    if ps != [] {
      var init := ps[..|ps| - 1];
      IndexedNames(init, name);
      if exists i :: 0 <= i < |init| && init[i].name == name {
        var i :| 0 <= i < |init| && init[i].name == name;
        assert ps[i] == init[i];
      }
      if exists i :: 0 <= i < |ps| && ps[i].name == name {
        var i :| 0 <= i < |ps| && ps[i].name == name;
        if i < |init| { assert init[i] == ps[i]; }
      }
    }
  }

  /** A desired track is missing exactly when its URI is not in the listing. */
  lemma {:induction false} MissingMembers(desired: seq<Track>, present: seq<string>, t: Track)
    ensures t in Missing(desired, present) <==> t in desired && t.uri !in present
  {
    if desired != [] {
      var init := desired[..|desired| - 1];
      MissingMembers(init, present, t);
      assert desired == init + [desired[|desired| - 1]];
    }
  }

  /** Filtering keeps desired order: missing tracks of a newest-first list are newest first. */
  lemma {:induction false} MissingKeepsOrder(desired: seq<Track>, present: seq<string>)
    requires NewestFirst(desired)
    ensures NewestFirst(Missing(desired, present))
  {
    if desired != [] {
      var init := desired[..|desired| - 1];
      var last := desired[|desired| - 1];
      MissingKeepsOrder(init, present);
      forall x | x in Missing(init, present) ensures NotAfter(last.addedAt, x.addedAt) {
        MissingMembers(init, present, x);
        var i :| 0 <= i < |init| && init[i] == x;
        assert desired[i] == x;
      }
    }
  }

  /** A name is to be created exactly when it is desired and no existing playlist has it. */
  lemma {:induction false} AbsentMembers(names: seq<string>, index: map<string, Existing>, n: string)
    ensures n in Absent(names, index) <==> n in names && n !in index
  {
    if names != [] {
      var init := names[..|names| - 1];
      AbsentMembers(init, index, n);
      assert names == init + [names[|names| - 1]];
    }
  }

  /**
   * The partition: each desired name is either to be created (no existing
   * playlist has it), with its whole group to add, or has an id taken from
   * the existing playlist of that name and exactly its missing tracks to
   * add, present only when at least one track is missing; never both.
   */
  lemma ReconcilePartition(d: Groups, index: map<string, Existing>, n: string)
    requires d.Valid() && n in d.names
    ensures var plan := ReconcileIndex(d, index);
      && (n in plan.toCreate <==> n !in index)
      && (n in plan.ids <==> n in index)
      && (n !in index ==> n in plan.toAdd && plan.toAdd[n] == d.members[n])
      && (n in index ==> plan.ids[n] == index[n].id.GetOr(UnknownPlaylistId))
      && (n in index ==> (n in plan.toAdd <==> exists t :: t in d.members[n] && t.uri !in index[n].trackUris))
      && (n in index && n in plan.toAdd ==> plan.toAdd[n] == Missing(d.members[n], index[n].trackUris))
  {
    AbsentMembers(d.names, index, n);
    if n in index {
      var m := Missing(d.members[n], index[n].trackUris);
      if m != [] {
        MissingMembers(d.members[n], index[n].trackUris, m[0]);
      }
      if exists t :: t in d.members[n] && t.uri !in index[n].trackUris {
        var t :| t in d.members[n] && t.uri !in index[n].trackUris;
        MissingMembers(d.members[n], index[n].trackUris, t);
      }
    }
  }

  /** Every playlist the reconciliation mentions is a desired one. */
  lemma PlanMentionsOnlyDesired(d: Groups, index: map<string, Existing>)
    requires d.Valid()
    ensures var plan := ReconcileIndex(d, index);
      && (forall n :: n in plan.toCreate ==> n in d.names)
      && (forall n :: n in plan.toAdd ==> n in d.names)
      && (forall n :: n in plan.ids ==> n in d.names)
      && (forall n :: n in plan.toAdd ==> n in plan.ids || n in plan.toCreate)
  {
    forall n | n in Absent(d.names, index) ensures n in d.names {
      AbsentMembers(d.names, index, n);
    }
    forall n | n in ReconcileIndex(d, index).toAdd && n !in index ensures n in Absent(d.names, index) {
      AbsentMembers(d.names, index, n);
    }
  }

  /** Every desired playlist exists and already holds every desired track (by URI). */
  ghost predicate Synced(d: Groups, index: map<string, Existing>) {
    forall n :: n in d.members ==>
      n in index && forall t :: t in d.members[n] ==> t.uri in index[n].trackUris
  }

  /**
   * Idempotence: the reconciliation asks for nothing (no playlist to create,
   * no track to add) exactly when every desired playlist already exists with
   * all its tracks.
   */
  lemma NothingToDoIffSynced(d: Groups, index: map<string, Existing>)
    requires d.Valid()
    ensures var plan := ReconcileIndex(d, index);
      plan.toCreate == [] && plan.toAdd == map[] <==> Synced(d, index)
  {
    var plan := ReconcileIndex(d, index);
    if Synced(d, index) {
      if plan.toCreate != [] {
        AbsentMembers(d.names, index, plan.toCreate[0]);
        assert false;
      }
      forall n | n in d.members ensures Missing(d.members[n], index[n].trackUris) == [] {
        var m := Missing(d.members[n], index[n].trackUris);
        if m != [] {
          MissingMembers(d.members[n], index[n].trackUris, m[0]);
        }
      }
      assert plan.toAdd == map[];
    }
    if plan.toCreate == [] && plan.toAdd == map[] {
      forall n | n in d.members ensures n in index && forall t :: t in d.members[n] ==> t.uri in index[n].trackUris {
        AbsentMembers(d.names, index, n);
        assert n !in plan.toAdd;
        assert Missing(d.members[n], index[n].trackUris) == [];
        forall t | t in d.members[n] ensures t.uri in index[n].trackUris {
          MissingMembers(d.members[n], index[n].trackUris, t);
        }
      }
    }
  }

  /**
   * The worked case: desired {"2023": [t1, t2]} against an existing "2023"
   * already holding t1 gives nothing to create and exactly [t2] to add.
   */
  lemma OneTrackMissing(t1: Track, t2: Track, id: string)
    requires t1.uri != t2.uri
    ensures var d := Groups(["2023"], map["2023" := [t1, t2]]);
      var plan := Reconciliation(d, [Existing("2023", Some(id), [t1.uri])]);
      plan == Plan([], map["2023" := [t2]], map["2023" := id])
  {
    var d := Groups(["2023"], map["2023" := [t1, t2]]);
    var e := Existing("2023", Some(id), [t1.uri]);
    IndexOne(e);
    OneTrackPlan(d, map["2023" := e], t1, t2, id);
  }

  /** The worked case, field by field, against the index of that one playlist. */
  lemma OneTrackPlan(d: Groups, index: map<string, Existing>, t1: Track, t2: Track, id: string)
    requires t1.uri != t2.uri
    requires d == Groups(["2023"], map["2023" := [t1, t2]])
    requires index == map["2023" := Existing("2023", Some(id), [t1.uri])]
    ensures ReconcileIndex(d, index).toCreate == []
    ensures ReconcileIndex(d, index).toAdd == map["2023" := [t2]]
    ensures ReconcileIndex(d, index).ids == map["2023" := id]
  {
    SecondMissing(t1, t2);
    assert d.names == [] + ["2023"];
    assert PlanFor(d.members, index, []) == Plan([], map[], map[]);
    PlanForStep(d.members, index, [], "2023");
  }

  /** A single existing playlist is indexed under its own name. */
  lemma IndexOne(e: Existing)
    ensures IndexByName([e]) == map[e.name := e]
  {
    assert [e][..0] == [];
  }

  /** Of [t1, t2] against a listing holding only t1, exactly t2 is missing. */
  lemma SecondMissing(t1: Track, t2: Track)
    requires t1.uri != t2.uri
    ensures Missing([t1, t2], [t1.uri]) == [t2]
  {
    var desired := [t1, t2];
    assert desired[..|desired| - 1] == [t1];
    assert [t1][..|[t1]| - 1] == [];
    assert Missing([t1], [t1.uri]) == [];
  }
}
