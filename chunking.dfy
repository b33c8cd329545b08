/**
 * Submitting tracks to a playlist (`add_tracks_to_playlist`): the service
 * accepts at most 100 URIs per request.
 */
module Chunking {

  const MaxTracksPerRequest: nat := 100

  /**
   * The payloads of the intended submission, in order: the list cut into
   * consecutive batches of 100 with a shorter last one, none for an empty list.
   */
  function Batches(uris: seq<string>): (bs: seq<seq<string>>)
    ensures forall i :: 0 <= i < |bs| ==> 0 < |bs[i]| <= MaxTracksPerRequest
    decreases |uris|
  {
    if uris == [] then []
    else if |uris| <= MaxTracksPerRequest then [uris]
    else [uris[..MaxTracksPerRequest]] + Batches(uris[MaxTracksPerRequest..])
  }

  /** The batches joined back together. */
  function Flatten(bs: seq<seq<string>>): seq<string> {
    if bs == [] then [] else bs[0] + Flatten(bs[1..])
  }

  /**
   * The intended submission loses nothing and reorders nothing: its batches
   * join back to the input, there are ceil(L / 100) of them, each holds 1 to
   * 100 URIs, and all but the last hold exactly 100.
   */
  lemma {:induction false} BatchesComplete(uris: seq<string>)
    ensures Flatten(Batches(uris)) == uris
    ensures |Batches(uris)| == (|uris| + MaxTracksPerRequest - 1) / MaxTracksPerRequest
    ensures forall i :: 0 <= i < |Batches(uris)| ==> 0 < |Batches(uris)[i]| <= MaxTracksPerRequest
    ensures forall i :: 0 <= i < |Batches(uris)| - 1 ==> |Batches(uris)[i]| == MaxTracksPerRequest
    decreases |uris|
  {
    if |uris| > MaxTracksPerRequest {
      var rest := uris[MaxTracksPerRequest..];
      BatchesComplete(rest);
      var bs := Batches(uris);
      assert bs[1..] == Batches(rest);
      assert uris == uris[..MaxTracksPerRequest] + rest;
    }
  }

  /**
   * `add_tracks_to_playlist` as written: a list of 100 or more is first cut
   * to its first 100 URIs, and only then is the remainder taken from the
   * already-cut list; one request is sent, and the recursion runs only on a
   * non-empty remainder.
   */
  function AddTracksAsWritten(uris: seq<string>): seq<seq<string>>
    decreases |uris|
  {
    var sent := if |uris| >= MaxTracksPerRequest then uris[..MaxTracksPerRequest] else uris;
    var remaining := if |uris| >= MaxTracksPerRequest then sent[MaxTracksPerRequest..] else [];
    [sent] + (if |remaining| > 0 then AddTracksAsWritten(remaining) else [])
  }

  /**
   * As written, exactly one request is sent whatever the length, even for an
   * empty list, carrying the first min(L, 100) URIs; every URI past the
   * hundredth is dropped.
   */
  lemma AsWrittenTruncates(uris: seq<string>)
    ensures |uris| <= MaxTracksPerRequest ==> AddTracksAsWritten(uris) == [uris]
    ensures |uris| > MaxTracksPerRequest ==> AddTracksAsWritten(uris) == [uris[..MaxTracksPerRequest]]
    ensures |uris| > MaxTracksPerRequest ==> Flatten(AddTracksAsWritten(uris)) != uris
    ensures uris == [] ==> Batches(uris) == [] && AddTracksAsWritten(uris) == [[]]
  {
    if |uris| >= MaxTracksPerRequest {
      var sent := uris[..MaxTracksPerRequest];
      assert |sent[MaxTracksPerRequest..]| == 0;
      assert AddTracksAsWritten(uris) == [sent];
      assert |uris| == MaxTracksPerRequest ==> sent == uris;
      if |uris| > MaxTracksPerRequest {
        assert Flatten([sent]) == sent + Flatten([]);
        assert |Flatten([sent])| < |uris|;
      }
    } else {
      assert AddTracksAsWritten(uris) == [uris] + [];
    }
  }
}
