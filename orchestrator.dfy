/**
 * The whole run (`create_playlists_from_library`): fetch the library, bucket
 * it, reconcile against the user's playlists, create what is missing and
 * submit the missing tracks. Every POST the run issues is recorded; with
 * dry-run on, none is sent.
 */
module Orchestrator {
  import opened Wrappers
  import opened Tracks
  import opened Labels
  import opened StatusCodes
  import opened Pagination
  import opened Grouping
  import opened Reconcile
  import ReconcileProperties
  import opened Chunking

  /** A POST of the run: create a playlist under a user, or add URIs to a playlist. */
  datatype Request = CreatePlaylist(userId: string, name: string) | AddTracks(playlistId: string, uris: seq<string>)

  /** One add request per batch, in batch order. */
  function AddRequests(playlistId: string, batches: seq<seq<string>>): seq<Request> {
    seq(|batches|, i requires 0 <= i < |batches| => AddTracks(playlistId, batches[i]))
  }

  /** One create request per name, in order. */
  function CreateRequests(userId: string, names: seq<string>): seq<Request> {
    seq(|names|, i requires 0 <= i < |names| => CreatePlaylist(userId, names[i]))
  }

  /** What `post` returns, reduced to the id it may carry: an empty dict in dry-run, else the service's reply. */
  function PostReply(dryRun: bool, reply: Option<string>): Option<string> {
    if dryRun then None else reply
  }

  /** The reply the service gives to creating `name`, if it carries an id. */
  function ReplyFor(replies: map<string, string>, name: string): Option<string> {
    if name in replies then Some(replies[name]) else None
  }

  /** The ids recorded for the playlists the run creates. */
  function NewIds(names: seq<string>, dryRun: bool, replies: map<string, string>): map<string, string> {
    map n | n in names :: PostReply(dryRun, ReplyFor(replies, n)).GetOr(UnknownPlaylistId)
  }

  /** The ids the update loop uses: those of existing playlists, overridden by those of the playlists just created. */
  function RunIds(plan: Plan, dryRun: bool, replies: map<string, string>): map<string, string> {
    plan.ids + NewIds(plan.toCreate, dryRun, replies)
  }

  /** The URIs submitted for playlist `n`: its missing tracks, oldest first. */
  function SubmittedUris(toAdd: map<string, seq<Track>>, n: string): (u: seq<string>)
    requires n in toAdd
    ensures multiset(u) == multiset(Uris(toAdd[n]))
  {
    ReversedMultiset(Uris(toAdd[n]));
    Reversed(Uris(toAdd[n]))
  }

  /** As written (main.py line 189), the URIs come from the whole desired group, not from the missing tracks. */
  function SubmittedUrisAsWritten(d: Groups, n: string): (u: seq<string>)
    requires n in d.members
    ensures multiset(u) == multiset(Uris(d.members[n]))
  {
    ReversedMultiset(Uris(d.members[n]));
    Reversed(Uris(d.members[n]))
  }

  /** The add requests for the names of `names` that have tracks to add, in that order. */
  function UpdateRequests(names: seq<string>, toAdd: map<string, seq<Track>>, ids: map<string, string>): seq<Request> {
    if names == [] then []
    else
      var n := names[|names| - 1];
      UpdateRequests(names[..|names| - 1], toAdd, ids)
        + (if n in toAdd && n in ids then AddRequests(ids[n], Batches(SubmittedUris(toAdd, n))) else [])
  }

  /**
   * Every POST of one run, given the desired playlists and the
   * reconciliation: first one create request per name to create, in order,
   * then only add requests.
   */
  function RunRequests(d: Groups, plan: Plan, userId: string, dryRun: bool, replies: map<string, string>): (run: seq<Request>)
    ensures |plan.toCreate| <= |run|
    ensures forall i :: 0 <= i < |plan.toCreate| ==> run[i] == Request.CreatePlaylist(userId, plan.toCreate[i])
    ensures forall i :: |plan.toCreate| <= i < |run| ==> run[i].AddTracks?
  {
    var ids := RunIds(plan, dryRun, replies);
    UpdateRequestsTargets(d.names, plan.toAdd, ids);
    CreateRequests(userId, plan.toCreate) + UpdateRequests(d.names, plan.toAdd, ids)
  }

  /** Every request of the update loop adds tracks to one of the ids it is given. */
  lemma {:induction false} UpdateRequestsTargets(names: seq<string>, toAdd: map<string, seq<Track>>, ids: map<string, string>)
    ensures forall r :: r in UpdateRequests(names, toAdd, ids) ==> r.AddTracks? && r.playlistId in ids.Values
    decreases |names|
  {
    if names != [] {
      var n := names[|names| - 1];
      UpdateRequestsTargets(names[..|names| - 1], toAdd, ids);
      if n in toAdd && n in ids {
        assert ids[n] in ids.Values;
      }
    }
  }

  /** Reverses `a` in place by swapping from both ends towards the middle. */
  method ReverseList(a: array<string>)
    modifies a
    ensures a[..] == Reversed(old(a[..]))
  {
    var lo, hi := 0, a.Length;
    while lo + 1 < hi
      invariant 0 <= lo <= hi <= a.Length && lo + hi == a.Length
      invariant forall k :: 0 <= k < lo ==> a[k] == old(a[a.Length - 1 - k])
      invariant forall k :: hi <= k < a.Length ==> a[k] == old(a[a.Length - 1 - k])
      invariant forall k :: lo <= k < hi ==> a[k] == old(a[k])
    {
      a[lo], a[hi - 1] := a[hi - 1], a[lo];
      lo, hi := lo + 1, hi - 1;
    }
  }

  /** One run of the script against the service; `recorded` is the debug log of POSTs, `sent` what reached the service. */
  class Session {
    const dryRun: bool
    const userId: string
    var recorded: seq<Request>
    var sent: seq<Request>

    constructor (dryRun: bool, userId: string)
      ensures this.dryRun == dryRun && this.userId == userId
      ensures recorded == [] && sent == []
    {
      this.dryRun := dryRun;
      this.userId := userId;
      recorded := [];
      sent := [];
    }

    /**
     * `post`: logged always, sent only when dry-run is off; returns the
     * service's `reply` when sent and nothing (an empty dict) otherwise.
     */
    method Post(r: Request, reply: Option<string>) returns (res: Option<string>)
      modifies this
      ensures recorded == old(recorded) + [r]
      ensures sent == old(sent) + (if dryRun then [] else [r])
      ensures res == PostReply(dryRun, reply)
    {
      recorded := recorded + [r];
      res := None;
      if !dryRun {
        sent := sent + [r];
        res := reply;
      }
    }

    /** `create_playlist`: one create request; the id from the reply, or the sentinel. */
    method CreatePlaylist(name: string, reply: Option<string>) returns (id: string)
      modifies this
      ensures recorded == old(recorded) + [Request.CreatePlaylist(userId, name)]
      ensures sent == old(sent) + (if dryRun then [] else [Request.CreatePlaylist(userId, name)])
      ensures id == PostReply(dryRun, reply).GetOr(UnknownPlaylistId)
    {
      var res := Post(Request.CreatePlaylist(userId, name), reply);
      id := res.GetOr(UnknownPlaylistId);
    }

    /**
     * `add_tracks_to_playlist` with the evidently intended behaviour: post
     * the next batch of at most 100 URIs until none remain.
     */
    method AddTracksToPlaylist(trackUris: seq<string>, playlistId: string)
      modifies this
      ensures recorded == old(recorded) + AddRequests(playlistId, Batches(trackUris))
      ensures sent == old(sent) + (if dryRun then [] else AddRequests(playlistId, Batches(trackUris)))
    {
      var remaining := trackUris;
      while remaining != []
        invariant recorded + AddRequests(playlistId, Batches(remaining))
               == old(recorded) + AddRequests(playlistId, Batches(trackUris))
        invariant sent + (if dryRun then [] else AddRequests(playlistId, Batches(remaining)))
               == old(sent) + (if dryRun then [] else AddRequests(playlistId, Batches(trackUris)))
        decreases |remaining|
      {
        var n := if |remaining| <= MaxTracksPerRequest then |remaining| else MaxTracksPerRequest;
        AddRequestsSplit(playlistId, remaining, n);
        var r := AddTracks(playlistId, remaining[..n]);
        ghost var rest := AddRequests(playlistId, Batches(remaining[n..]));
        Associative(recorded, [r], rest);
        Associative(sent, [r], rest);
        var _ := Post(r, None);
        remaining := remaining[n..];
      }
    }

    /**
     * `create_playlists_from_library`: halts with the status of the first
     * failing page if the library cannot be fetched; otherwise creates the
     * missing playlists, recording their ids, then submits for every
     * playlist with tracks to add its missing tracks, oldest first.
     */
    method CreatePlaylistsFromLibrary(libraryPages: seq<Response<Track>>, userPlaylists: seq<Existing>,
                                      g: Granularity, replies: map<string, string>)
      returns (status: Status)
      requires Chained(libraryPages)
      modifies this
      ensures GetAllPages(libraryPages, 0).Halted? ==>
        status == GetAllPages(libraryPages, 0).status && recorded == old(recorded) && sent == old(sent)
      ensures GetAllPages(libraryPages, 0).Done? ==>
        var d := Grouped(GetAllPages(libraryPages, 0).items, g);
        var run := RunRequests(d, Reconciliation(d, userPlaylists), userId, dryRun, replies);
        && status == Status.Ok
        && recorded == old(recorded) + run
        && sent == old(sent) + (if dryRun then [] else run)
    {
      var fetched := GetAllPages(libraryPages, 0);
      if fetched.Halted? {
        return fetched.status;
      }
      var playlists := GeneratePlaylists(fetched.items, g);
      var names, tracks, ids := PlaylistsFilterExisting(playlists, userPlaylists);
      ReconcileProperties.PlanMentionsOnlyDesired(playlists, IndexByName(userPlaylists));
      ghost var plan := Reconciliation(playlists, userPlaylists);
      ghost var run := RunRequests(playlists, plan, userId, dryRun, replies);
      assert plan == Plan(names, tracks, ids);
      ghost var created := recorded;
      ghost var createdSent := sent;
      var allIds := CreatePlaylists(names, ids, replies);
      SubmitTracks(playlists.names, tracks, allIds);
      ghost var c := CreateRequests(userId, names);
      ghost var u := UpdateRequests(playlists.names, tracks, allIds);
      assert run == c + u;
      Associative(old(recorded), c, u);
      Associative(old(sent), c, u);
      return Status.Ok;
    }

    /** The creation loop: one create request per name, each id recorded under its name. */
    method CreatePlaylists(names: seq<string>, ids: map<string, string>, replies: map<string, string>)
      returns (allIds: map<string, string>)
      modifies this
      ensures allIds == ids + NewIds(names, dryRun, replies)
      ensures recorded == old(recorded) + CreateRequests(userId, names)
      ensures sent == old(sent) + (if dryRun then [] else CreateRequests(userId, names))
    {
      allIds := ids;
      for i := 0 to |names|
        invariant allIds == ids + NewIds(names[..i], dryRun, replies)
        invariant recorded == old(recorded) + CreateRequests(userId, names[..i])
        invariant sent == old(sent) + (if dryRun then [] else CreateRequests(userId, names[..i]))
      {
        var id := CreatePlaylist(names[i], ReplyFor(replies, names[i]));
        allIds := allIds[names[i] := id];
        CreateStep(names, i, userId, ids, dryRun, replies);
      }
      assert names[..|names|] == names;
    }

    /**
     * The update loop: for each name in order that has tracks to add, the
     * URIs of those tracks are reversed in place and submitted in batches.
     */
    method SubmitTracks(order: seq<string>, toAdd: map<string, seq<Track>>, ids: map<string, string>)
      requires forall n :: n in toAdd ==> n in ids
      modifies this
      ensures recorded == old(recorded) + UpdateRequests(order, toAdd, ids)
      ensures sent == old(sent) + (if dryRun then [] else UpdateRequests(order, toAdd, ids))
    {
      for i := 0 to |order|
        invariant recorded == old(recorded) + UpdateRequests(order[..i], toAdd, ids)
        invariant sent == old(sent) + (if dryRun then [] else UpdateRequests(order[..i], toAdd, ids))
      {
        var p := order[i];
        UpdateStep(order, i, toAdd, ids);
        if p in toAdd {
          SubmitOldestFirst(toAdd[p], ids[p]);
          Associative(old(recorded), UpdateRequests(order[..i], toAdd, ids), AddRequests(ids[p], Batches(SubmittedUris(toAdd, p))));
          if !dryRun {
            Associative(old(sent), UpdateRequests(order[..i], toAdd, ids), AddRequests(ids[p], Batches(SubmittedUris(toAdd, p))));
          }
        }
      }
      assert order[..|order|] == order;
    }

    /** The URIs of `tracks` are copied into a list, reversed in place and submitted in batches. */
    method SubmitOldestFirst(tracks: seq<Track>, playlistId: string)
      modifies this
      ensures recorded == old(recorded) + AddRequests(playlistId, Batches(Reversed(Uris(tracks))))
      ensures sent == old(sent) + (if dryRun then [] else AddRequests(playlistId, Batches(Reversed(Uris(tracks)))))
    {
      var uris := new string[|tracks|](k requires 0 <= k < |tracks| => tracks[k].uri);
      assert uris[..] == Uris(tracks);
      ReverseList(uris);
      AddTracksToPlaylist(uris[..], playlistId);
    }
  }

  /** The add requests for one name more are those for the shorter list and that name's own. */
  lemma UpdateStep(order: seq<string>, i: nat, toAdd: map<string, seq<Track>>, ids: map<string, string>)
    requires i < |order|
    ensures var n := order[i];
      UpdateRequests(order[..i + 1], toAdd, ids)
      == UpdateRequests(order[..i], toAdd, ids)
         + (if n in toAdd && n in ids then AddRequests(ids[n], Batches(SubmittedUris(toAdd, n))) else [])
  {
    assert order[..i + 1][..i] == order[..i];
  }

  lemma CreateStep(names: seq<string>, i: nat, userId: string, ids: map<string, string>, dryRun: bool, replies: map<string, string>)
    requires i < |names|
    ensures ids + NewIds(names[..i + 1], dryRun, replies)
         == (ids + NewIds(names[..i], dryRun, replies))[names[i] := PostReply(dryRun, ReplyFor(replies, names[i])).GetOr(UnknownPlaylistId)]
    ensures CreateRequests(userId, names[..i + 1])
         == CreateRequests(userId, names[..i]) + [Request.CreatePlaylist(userId, names[i])]
  {
    assert names[..i + 1] == names[..i] + [names[i]];
  }

  lemma AddRequestsConcat(playlistId: string, a: seq<seq<string>>, b: seq<seq<string>>)
    ensures AddRequests(playlistId, a + b) == AddRequests(playlistId, a) + AddRequests(playlistId, b)
  {
  }

  /** Cutting one batch off the front of the list cuts one add request off the front of the requests. */
  lemma AddRequestsSplit(playlistId: string, uris: seq<string>, n: nat)
    requires uris != [] && n == if |uris| <= MaxTracksPerRequest then |uris| else MaxTracksPerRequest
    ensures AddRequests(playlistId, Batches(uris))
         == [AddTracks(playlistId, uris[..n])] + AddRequests(playlistId, Batches(uris[n..]))
  {
    if |uris| <= MaxTracksPerRequest {
      LastBatch(playlistId, uris, n);
    } else {
      FullBatch(playlistId, uris, n);
    }
  }

  lemma LastBatch(playlistId: string, uris: seq<string>, n: nat)
    requires uris != [] && |uris| <= MaxTracksPerRequest && n == |uris|
    ensures AddRequests(playlistId, Batches(uris))
         == [AddTracks(playlistId, uris[..n])] + AddRequests(playlistId, Batches(uris[n..]))
  {
    assert uris[n..] == [] && uris[..n] == uris;
    assert AddRequests(playlistId, [uris]) == [AddTracks(playlistId, uris)];
  }

  lemma FullBatch(playlistId: string, uris: seq<string>, n: nat)
    requires |uris| > MaxTracksPerRequest && n == MaxTracksPerRequest
    ensures AddRequests(playlistId, Batches(uris))
         == [AddTracks(playlistId, uris[..n])] + AddRequests(playlistId, Batches(uris[n..]))
  {
    AddRequestsConcat(playlistId, [uris[..n]], Batches(uris[n..]));
    assert AddRequests(playlistId, [uris[..n]]) == [AddTracks(playlistId, uris[..n])];
  }
}
