/** What one run of the orchestration guarantees, stated over the requests it issues. */
module RunProperties {
  import opened Wrappers
  import opened Tracks
  import opened Labels
  import opened Pagination
  import opened Grouping
  import opened Reconcile
  import opened ReconcileProperties
  import opened Chunking
  import opened Orchestrator

  lemma UrisMembers(ts: seq<Track>, u: string)
    ensures u in Uris(ts) <==> exists t :: t in ts && t.uri == u
  {
    if u in Uris(ts) {
      var i :| 0 <= i < |ts| && Uris(ts)[i] == u;
      assert ts[i] in ts;
    }
    if exists t :: t in ts && t.uri == u {
      var t :| t in ts && t.uri == u;
      var i :| 0 <= i < |ts| && ts[i] == t;
      assert Uris(ts)[i] == u;
    }
  }

  /**
   * The corrected submission never re-sends a track an existing playlist
   * already holds: every URI submitted to it is missing from its listing.
   */
  lemma NoPresentTrackResubmitted(d: Groups, index: map<string, Existing>, n: string, u: string)
    requires d.Valid() && n in d.names && n in index
    requires n in ReconcileIndex(d, index).toAdd
    requires u in SubmittedUris(ReconcileIndex(d, index).toAdd, n)
    ensures u !in index[n].trackUris
  {
    var plan := ReconcileIndex(d, index);
    ReconcilePartition(d, index, n);
    ReversedMembers(Uris(plan.toAdd[n]));
    UrisMembers(plan.toAdd[n], u);
    var t :| t in plan.toAdd[n] && t.uri == u;
    MissingMembers(d.members[n], index[n].trackUris, t);
  }

  /**
   * As written, the URIs submitted for an existing playlist come from the
   * whole desired group: in the worked case ({"2023": [t1, t2]} against an
   * existing "2023" holding t1) t1 is sent again, while the corrected
   * submission sends only t2.
   */
  lemma AsWrittenResubmitsPresentTrack(t1: Track, t2: Track, id: string)
    requires t1.uri != t2.uri
    ensures var d := Groups(["2023"], map["2023" := [t1, t2]]);
      var existing := [Existing("2023", Some(id), [t1.uri])];
      var plan := Reconciliation(d, existing);
      && "2023" in plan.toAdd
      && SubmittedUrisAsWritten(d, "2023") == [t2.uri, t1.uri]
      && t1.uri in existing[0].trackUris
      && SubmittedUris(plan.toAdd, "2023") == [t2.uri]
  {
    var d := Groups(["2023"], map["2023" := [t1, t2]]);
    var plan := Reconciliation(d, [Existing("2023", Some(id), [t1.uri])]);
    assert plan == Plan([], map["2023" := [t2]], map["2023" := id]) by {
      OneTrackMissing(t1, t2, id);
    }
    PairSubmittedAsWritten(d, t1, t2);
    SingleSubmitted(plan.toAdd, t2);
  }

  lemma PairSubmittedAsWritten(d: Groups, t1: Track, t2: Track)
    requires d == Groups(["2023"], map["2023" := [t1, t2]])
    ensures SubmittedUrisAsWritten(d, "2023") == [t2.uri, t1.uri]
  {
    assert Uris([t1, t2]) == [t1.uri, t2.uri];
    assert Reversed([t1.uri, t2.uri]) == [t2.uri, t1.uri];
  }

  lemma SingleSubmitted(toAdd: map<string, seq<Track>>, t: Track)
    requires toAdd == map["2023" := [t]]
    ensures SubmittedUris(toAdd, "2023") == [t.uri]
  {
    assert Uris([t]) == [t.uri];
    assert Reversed([t.uri]) == [t.uri];
  }

  /** The index after a run: created playlists and existing ones hold the URIs submitted to them. */
  function AfterRun(d: Groups, index: map<string, Existing>): map<string, Existing> {
    var toAdd := ReconcileIndex(d, index).toAdd;
    map n | n in index.Keys + toAdd.Keys ::
      if n !in toAdd then index[n]
      else if n in index then index[n].(trackUris := index[n].trackUris + SubmittedUris(toAdd, n))
      else Existing(n, None, SubmittedUris(toAdd, n))
  }

  /**
   * Re-running is a no-op: once a run's playlists are created and its
   * submissions landed, reconciling the same desired playlists again asks
   * for nothing to create and nothing to add.
   */
  lemma RerunFindsNothing(d: Groups, index: map<string, Existing>)
    requires d.Valid()
    ensures var again := ReconcileIndex(d, AfterRun(d, index));
      again.toCreate == [] && again.toAdd == map[]
  {
    var after := AfterRun(d, index);
    var toAdd := ReconcileIndex(d, index).toAdd;
    forall n | n in d.members
      ensures n in after && forall t :: t in d.members[n] ==> t.uri in after[n].trackUris
    {
      ReconcilePartition(d, index, n);
      forall t | t in d.members[n] ensures t.uri in after[n].trackUris {
        if n !in index || t.uri !in index[n].trackUris {
          if n in index {
            MissingMembers(d.members[n], index[n].trackUris, t);
          }
          UrisMembers(toAdd[n], t.uri);
          ReversedMembers(Uris(toAdd[n]));
        }
      }
    }
    NothingToDoIffSynced(d, after);
  }

  /** Newest-first desired groups give oldest-first submissions. */
  lemma NewestGroupsOldestSubmissions(d: Groups, index: map<string, Existing>, n: string)
    requires d.Valid() && n in d.names && NewestFirst(d.members[n])
    requires n in ReconcileIndex(d, index).toAdd
    ensures var toAdd := ReconcileIndex(d, index).toAdd;
      && OldestFirst(Reversed(toAdd[n]))
      && SubmittedUris(toAdd, n) == Uris(Reversed(toAdd[n]))
  {
    var toAdd := ReconcileIndex(d, index).toAdd;
    ReconcilePartition(d, index, n);
    if n in index {
      MissingKeepsOrder(d.members[n], index[n].trackUris);
    }
    ReversedNewestIsOldest(toAdd[n]);
    ReversedUris(toAdd[n]);
  }

  /**
   * Chronological submission: if the library comes newest first, the
   * tracks behind every submission are oldest first.
   */
  lemma SubmittedOldestFirst(ts: seq<Track>, g: Granularity, index: map<string, Existing>, n: string)
    requires NewestFirst(ts)
    requires n in ReconcileIndex(Grouped(ts, g), index).toAdd
    ensures var toAdd := ReconcileIndex(Grouped(ts, g), index).toAdd;
      && OldestFirst(Reversed(toAdd[n]))
      && SubmittedUris(toAdd, n) == Uris(Reversed(toAdd[n]))
  {
    var d := Grouped(ts, g);
    PlanMentionsOnlyDesired(d, index);
    assert n in d.names;
    assert d.members[n] == Select(ts, g, n);
    SelectKeepsOrder(ts, g, n);
    NewestGroupsOldestSubmissions(d, index, n);
  }

  /**
   * End to end with the corrected fetch: if every page of the chain answers
   * 200-209 and the collection is served newest first, the walk succeeds and
   * every playlist's submission is oldest first.
   */
  lemma ChronologicalRun(pages: seq<Response<Track>>, g: Granularity, existing: seq<Existing>, n: string)
    requires Chained(pages) && AllOk(pages[..LastPage(pages, 0) + 1])
    requires NewestFirst(InPageOrder(pages[..LastPage(pages, 0) + 1]))
    ensures GetAllPages(pages, 0).Done?
    ensures var toAdd := Reconciliation(Grouped(GetAllPages(pages, 0).items, g), existing).toAdd;
      n in toAdd ==> OldestFirst(Reversed(toAdd[n]))
  {
    assert pages[0..LastPage(pages, 0) + 1] == pages[..LastPage(pages, 0) + 1];
    GetAllPagesComplete(pages, 0);
    var ts := GetAllPages(pages, 0).items;
    if n in Reconciliation(Grouped(ts, g), existing).toAdd {
      SubmittedOldestFirst(ts, g, IndexByName(existing), n);
    }
  }

  /** The URIs the add requests among `rs` carry together, with multiplicity. */
  function Carried(rs: seq<Request>): multiset<string> {
    if rs == [] then multiset{}
    else Carried(rs[..|rs| - 1]) + (if rs[|rs| - 1].AddTracks? then multiset(rs[|rs| - 1].uris) else multiset{})
  }

  lemma {:induction false} CarriedConcat(a: seq<Request>, b: seq<Request>)
    ensures Carried(a + b) == Carried(a) + Carried(b)
    decreases |b|
  {
    if b != [] {
      var init := b[..|b| - 1];
      assert (a + b)[..|a + b| - 1] == a + init;
      assert (a + b)[|a + b| - 1] == b[|b| - 1];
      CarriedConcat(a, init);
    } else {
      assert a + b == a;
    }
  }

  /** The add requests for a list of batches carry exactly the URIs of the batches. */
  lemma {:induction false} BatchRequestsCarried(id: string, bs: seq<seq<string>>)
    ensures Carried(AddRequests(id, bs)) == multiset(Flatten(bs))
    decreases |bs|
  {
    if bs != [] {
      assert AddRequests(id, bs) == [AddTracks(id, bs[0])] + AddRequests(id, bs[1..]);
      BatchRequestsCarried(id, bs[1..]);
      CarriedConcat([AddTracks(id, bs[0])], AddRequests(id, bs[1..]));
      assert Carried([AddTracks(id, bs[0])]) == multiset(bs[0]) by {
        assert [AddTracks(id, bs[0])][..0] == [];
      }
    }
  }

  /** Create requests carry no URI. */
  lemma {:induction false} CreateRequestsCarried(userId: string, names: seq<string>)
    ensures Carried(CreateRequests(userId, names)) == multiset{}
    decreases |names|
  {
    if names != [] {
      var init := names[..|names| - 1];
      CreateRequestsCarried(userId, init);
      assert CreateRequests(userId, names)[..|names| - 1] == CreateRequests(userId, init);
    }
  }

  /** The URIs of the tracks the names of `names` have to add, together, with multiplicity. */
  function ToAddUris(names: seq<string>, toAdd: map<string, seq<Track>>): multiset<string> {
    if names == [] then multiset{}
    else
      var n := names[|names| - 1];
      ToAddUris(names[..|names| - 1], toAdd) + (if n in toAdd then multiset(Uris(toAdd[n])) else multiset{})
  }

  /** The add requests carry exactly the URIs of the tracks to add, each as often as it is to be added. */
  lemma {:induction false} UpdateRequestsCarried(names: seq<string>, toAdd: map<string, seq<Track>>, ids: map<string, string>)
    requires forall n :: n in toAdd ==> n in ids
    ensures Carried(UpdateRequests(names, toAdd, ids)) == ToAddUris(names, toAdd)
    decreases |names|
  {
    if names != [] {
      var init := names[..|names| - 1];
      var n := names[|names| - 1];
      UpdateRequestsCarried(init, toAdd, ids);
      if n in toAdd {
        var uris := SubmittedUris(toAdd, n);
        assert UpdateRequests(names, toAdd, ids) == UpdateRequests(init, toAdd, ids) + AddRequests(ids[n], Batches(uris));
        CarriedConcat(UpdateRequests(init, toAdd, ids), AddRequests(ids[n], Batches(uris)));
        BatchRequestsCarried(ids[n], Batches(uris));
        BatchesComplete(uris);
        ReversedMultiset(Uris(toAdd[n]));
      } else {
        assert UpdateRequests(names, toAdd, ids) == UpdateRequests(init, toAdd, ids) + [];
        assert UpdateRequests(init, toAdd, ids) + [] == UpdateRequests(init, toAdd, ids);
      }
    }
  }

  lemma {:induction false} UrisWithoutExisting(names: seq<string>, ts: seq<Track>, g: Granularity, toAdd: map<string, seq<Track>>)
    requires forall n :: n in names ==> n in toAdd && toAdd[n] == Select(ts, g, n)
    ensures ToAddUris(names, toAdd) == GroupUris(names, ts, g)
    decreases |names|
  {
    if names != [] {
      UrisWithoutExisting(names[..|names| - 1], ts, g, toAdd);
    }
  }

  /**
   * With no existing playlists, a run creates one playlist per label, in
   * order of first occurrence, and its add requests carry the URI of every
   * saved track, each exactly as often as it is saved.
   */
  lemma FreshAccountRun(ts: seq<Track>, g: Granularity, userId: string, dryRun: bool, replies: map<string, string>)
    ensures var d := Grouped(ts, g);
      var plan := Reconciliation(d, []);
      var run := RunRequests(d, plan, userId, dryRun, replies);
      && plan.toCreate == FirstSeen(ts, g)
      && Carried(run) == multiset(Uris(ts))
      && |Carried(run)| == |ts|
  {
    var d := Grouped(ts, g);
    var index: map<string, Existing> := map[];
    assert IndexByName([]) == index;
    var plan := ReconcileIndex(d, index);
    assert plan == Reconciliation(d, []);
    AbsentNothing(d.names, index);
    FreshAccountToAdd(d, ts, g);
    PlanMentionsOnlyDesired(d, index);
    var ids := RunIds(plan, dryRun, replies);
    var creates := CreateRequests(userId, plan.toCreate);
    var updates := UpdateRequests(d.names, plan.toAdd, ids);
    assert RunRequests(d, plan, userId, dryRun, replies) == creates + updates;
    CarriedConcat(creates, updates);
    CreateRequestsCarried(userId, plan.toCreate);
    UpdateRequestsCarried(d.names, plan.toAdd, ids);
    UrisWithoutExisting(d.names, ts, g, plan.toAdd);
    GroupsPartition(ts, g);
    assert |multiset(Uris(ts))| == |Uris(ts)|;
  }

  /** With no existing playlist, every label's whole group is to be added. */
  lemma FreshAccountToAdd(d: Groups, ts: seq<Track>, g: Granularity)
    requires d == Grouped(ts, g) && d.Valid()
    ensures forall n :: n in d.names ==>
      n in ReconcileIndex(d, map[]).toAdd && ReconcileIndex(d, map[]).toAdd[n] == Select(ts, g, n)
  {
    forall n | n in d.names
      ensures n in ReconcileIndex(d, map[]).toAdd && ReconcileIndex(d, map[]).toAdd[n] == Select(ts, g, n)
    {
      ReconcilePartition(d, map[], n);
    }
  }

  lemma {:induction false} AbsentNothing(names: seq<string>, index: map<string, Existing>)
    requires index == map[]
    ensures Absent(names, index) == names
    decreases |names|
  {
    if names != [] {
      AbsentNothing(names[..|names| - 1], index);
    }
  }

  /** Create requests are all creations. */
  lemma CreateRequestsCreate(userId: string, names: seq<string>)
    ensures forall r :: r in CreateRequests(userId, names) ==> r.CreatePlaylist? && r.userId == userId
  {
  }

  /**
   * Dry-run: `post` returns an empty dict, so `create_playlist` falls back to
   * the sentinel. Every name the run creates is recorded with the sentinel
   * id, and every existing name with the id its listing gave.
   */
  lemma DryRunIds(d: Groups, index: map<string, Existing>, replies: map<string, string>)
    ensures var ids := RunIds(ReconcileIndex(d, index), true, replies);
      forall n :: n in ids ==>
        ids[n] == if n in index then index[n].id.GetOr(UnknownPlaylistId) else UnknownPlaylistId
  {
    var plan := ReconcileIndex(d, index);
    var ids := RunIds(plan, true, replies);
    forall n | n in ids
      ensures ids[n] == if n in index then index[n].id.GetOr(UnknownPlaylistId) else UnknownPlaylistId
    {
      if n in plan.toCreate {
        AbsentMembers(d.names, index, n);
      }
    }
  }

  /**
   * Dry-run: `post` returns an empty dict, so every playlist the run would
   * create is known only by the sentinel id, and every add request goes
   * either to an existing playlist, by the id its listing gave, or to the
   * sentinel.
   */
  lemma DryRunTargets(d: Groups, index: map<string, Existing>, userId: string, replies: map<string, string>)
    ensures forall r :: r in RunRequests(d, ReconcileIndex(d, index), userId, true, replies) && r.AddTracks? ==>
      || r.playlistId == UnknownPlaylistId
      || exists n :: n in index && r.playlistId == index[n].id.GetOr(UnknownPlaylistId)
  {
    var plan := ReconcileIndex(d, index);
    var ids := RunIds(plan, true, replies);
    UpdateRequestsTargets(d.names, plan.toAdd, ids);
    CreateRequestsCreate(userId, plan.toCreate);
    forall r | r in RunRequests(d, plan, userId, true, replies) && r.AddTracks?
      ensures || r.playlistId == UnknownPlaylistId
              || exists n :: n in index && r.playlistId == index[n].id.GetOr(UnknownPlaylistId)
    {
      assert r !in CreateRequests(userId, plan.toCreate);
      assert r in UpdateRequests(d.names, plan.toAdd, ids);
      var n :| n in ids && ids[n] == r.playlistId;
      if n !in plan.toCreate {
        assert n in plan.ids && n in index;
      }
    }
  }

  /** Every add request carries between 1 and 100 URIs. */
  lemma {:induction false} UpdateRequestsWithinLimit(names: seq<string>, toAdd: map<string, seq<Track>>, ids: map<string, string>)
    ensures forall r :: r in UpdateRequests(names, toAdd, ids) ==>
      r.AddTracks? && 0 < |r.uris| <= MaxTracksPerRequest
    decreases |names|
  {
    if names != [] {
      var n := names[|names| - 1];
      UpdateRequestsWithinLimit(names[..|names| - 1], toAdd, ids);
      if n in toAdd && n in ids {
        BatchesComplete(SubmittedUris(toAdd, n));
      }
    }
  }

  /** A run never asks the service to add more than 100 URIs in one request, nor sends an empty add request. */
  lemma RunRequestsWithinLimit(d: Groups, plan: Plan, userId: string, dryRun: bool, replies: map<string, string>)
    ensures forall r :: r in RunRequests(d, plan, userId, dryRun, replies) && r.AddTracks? ==>
      0 < |r.uris| <= MaxTracksPerRequest
  {
    UpdateRequestsWithinLimit(d.names, plan.toAdd, RunIds(plan, dryRun, replies));
  }
}
