/**
 * The persistence store: three independent browser-storage slots, one for the
 * video list, one for the idea list and one for the authentication flag.
 * A slot is `None` when nothing is stored under its key. The JSON encoding of the
 * lists is abstracted away: a list slot holds the decoded sequence.
 */
module Storage {
  import opened Wrappers
  import opened Types
  import Seqs

  datatype Store = Store(videos: Option<seq<Video>>, ideas: Option<seq<VideoIdea>>, auth: Option<string>)

  /** A browser profile in which nothing has been stored yet. */
  const EmptyStore := Store(None, None, None)

  /** The stored video list; an absent slot reads as the empty list. */
  function GetVideos(st: Store): (r: seq<Video>)
    ensures st.videos.None? ==> r == []
  {
    st.videos.GetOr([])
  }

  /** Overwrites the video slot; reading it back yields exactly what was saved. */
  function SaveVideos(st: Store, videos: seq<Video>): (r: Store)
    ensures GetVideos(r) == videos
    ensures r.ideas == st.ideas && r.auth == st.auth
  {
    st.(videos := Some(videos))
  }

  /** Prepends a video: it becomes the newest entry and the old list follows, unchanged and in order. */
  function AddVideo(st: Store, video: Video): (r: Store)
    ensures |GetVideos(r)| == |GetVideos(st)| + 1
    ensures GetVideos(r)[0] == video && GetVideos(r)[1..] == GetVideos(st)
    ensures r.ideas == st.ideas && r.auth == st.auth
  {
    SaveVideos(st, [video] + GetVideos(st))
  }

  /** Removes every video whose id is `id` and keeps all others, with their multiplicities and in their order. */
  function DeleteVideo(st: Store, id: string): (r: Store)
    ensures forall v :: v in GetVideos(r) <==> v in GetVideos(st) && v.id != id
    ensures forall v: Video :: v.id != id ==> multiset(GetVideos(r))[v] == multiset(GetVideos(st))[v]
    ensures Seqs.IsSubsequence(GetVideos(r), GetVideos(st))
    ensures (forall i :: 0 <= i < |GetVideos(st)| ==> GetVideos(st)[i].id != id) ==> GetVideos(r) == GetVideos(st)
    ensures r.ideas == st.ideas && r.auth == st.auth
  {
    var keep := (v: Video) => v.id != id;
    Seqs.FilterIsSubsequence(GetVideos(st), keep);
    Seqs.FilterKeepsAll(GetVideos(st), keep);
    SaveVideos(st, Seqs.Filter(GetVideos(st), keep))
  }

  /** Deleting the same id a second time changes nothing more. */
  lemma DeleteVideoIdempotent(st: Store, id: string)
    ensures DeleteVideo(DeleteVideo(st, id), id) == DeleteVideo(st, id)
  {
  }

  /** The stored idea list; an absent slot reads as the empty list. */
  function GetIdeas(st: Store): (r: seq<VideoIdea>)
    ensures st.ideas.None? ==> r == []
  {
    st.ideas.GetOr([])
  }

  /** Overwrites the idea slot; reading it back yields exactly what was saved. */
  function SaveIdeas(st: Store, ideas: seq<VideoIdea>): (r: Store)
    ensures GetIdeas(r) == ideas
    ensures r.videos == st.videos && r.auth == st.auth
  {
    st.(ideas := Some(ideas))
  }

  /** Prepends an idea: it becomes the newest entry and the old list follows, unchanged and in order. */
  function AddIdea(st: Store, idea: VideoIdea): (r: Store)
    ensures |GetIdeas(r)| == |GetIdeas(st)| + 1
    ensures GetIdeas(r)[0] == idea && GetIdeas(r)[1..] == GetIdeas(st)
    ensures r.videos == st.videos && r.auth == st.auth
  {
    SaveIdeas(st, [idea] + GetIdeas(st))
  }

  /** `{ ...idea, ...patch }`: every field present in the patch overwrites, every absent one is kept. */
  function Merge(idea: VideoIdea, patch: IdeaPatch): (r: VideoIdea)
    ensures patch.id.Some? ==> r.id == patch.id.value
    ensures patch.id.None? ==> r.id == idea.id
    ensures patch.title.Some? ==> r.title == patch.title.value
    ensures patch.title.None? ==> r.title == idea.title
    ensures patch.description.Some? ==> r.description == patch.description.value
    ensures patch.description.None? ==> r.description == idea.description
    ensures patch.createdAt.Some? ==> r.createdAt == patch.createdAt.value
    ensures patch.createdAt.None? ==> r.createdAt == idea.createdAt
  {
    VideoIdea(
      patch.id.GetOr(idea.id),
      patch.title.GetOr(idea.title),
      patch.description.GetOr(idea.description),
      patch.createdAt.GetOr(idea.createdAt))
  }

  /** Merging the same patch again changes nothing more. */
  lemma MergeIdempotent(idea: VideoIdea, patch: IdeaPatch)
    ensures Merge(Merge(idea, patch), patch) == Merge(idea, patch)
  {
  }

  /** No idea in the list carries the id. */
  predicate NoIdeaWithId(ideas: seq<VideoIdea>, id: string) {
    forall j :: 0 <= j < |ideas| ==> ideas[j].id != id
  }

  /** Index `k` holds the first idea that carries the id. */
  predicate FirstIdeaWithId(ideas: seq<VideoIdea>, id: string, k: int) {
    0 <= k < |ideas| && ideas[k].id == id && forall j :: 0 <= j < k ==> ideas[j].id != id
  }

  /**
   * Merges `patch` into the first idea whose id is `id`. When no idea has that id,
   * nothing is saved and the store, including an absent idea slot, is left as it was.
   */
  function UpdateIdea(st: Store, id: string, patch: IdeaPatch): (r: Store)
    ensures NoIdeaWithId(GetIdeas(st), id) ==> r == st
    ensures forall k :: FirstIdeaWithId(GetIdeas(st), id, k) ==>
              && |GetIdeas(r)| == |GetIdeas(st)|
              && GetIdeas(r)[k] == Merge(GetIdeas(st)[k], patch)
              && (forall j :: 0 <= j < |GetIdeas(st)| && j != k ==> GetIdeas(r)[j] == GetIdeas(st)[j])
    ensures r.videos == st.videos && r.auth == st.auth
  {
    var ideas := GetIdeas(st);
    var index := Seqs.FindIndex(ideas, (i: VideoIdea) => i.id == id);
    if index != -1 then
      SaveIdeas(st, ideas[index := Merge(ideas[index], patch)])
    else
      st
  }

  /** A patch that does not touch the id can be applied twice with the effect of applying it once. */
  lemma UpdateIdeaIdempotent(st: Store, id: string, patch: IdeaPatch)
    requires patch.id.None?
    ensures UpdateIdea(UpdateIdea(st, id, patch), id, patch) == UpdateIdea(st, id, patch)
  {
    var ideas := GetIdeas(st);
    var k := Seqs.FindIndex(ideas, (i: VideoIdea) => i.id == id);
    if k != -1 {
      var once := UpdateIdea(st, id, patch);
      var ideas1 := GetIdeas(once);
      assert ideas1 == ideas[k := Merge(ideas[k], patch)];
      assert ideas1[k].id == id;
      assert Seqs.FindIndex(ideas1, (i: VideoIdea) => i.id == id) == k;
      MergeIdempotent(ideas[k], patch);
      assert ideas1[k := Merge(ideas1[k], patch)] == ideas1;
    }
  }

  /** Removes every idea whose id is `id` and keeps all others, with their multiplicities and in their order. */
  function DeleteIdea(st: Store, id: string): (r: Store)
    ensures forall i :: i in GetIdeas(r) <==> i in GetIdeas(st) && i.id != id
    ensures forall i: VideoIdea :: i.id != id ==> multiset(GetIdeas(r))[i] == multiset(GetIdeas(st))[i]
    ensures Seqs.IsSubsequence(GetIdeas(r), GetIdeas(st))
    ensures (forall j :: 0 <= j < |GetIdeas(st)| ==> GetIdeas(st)[j].id != id) ==> GetIdeas(r) == GetIdeas(st)
    ensures r.videos == st.videos && r.auth == st.auth
  {
    var keep := (i: VideoIdea) => i.id != id;
    Seqs.FilterIsSubsequence(GetIdeas(st), keep);
    Seqs.FilterKeepsAll(GetIdeas(st), keep);
    SaveIdeas(st, Seqs.Filter(GetIdeas(st), keep))
  }

  /** Deleting the same id a second time changes nothing more. */
  lemma DeleteIdeaIdempotent(st: Store, id: string)
    ensures DeleteIdea(DeleteIdea(st, id), id) == DeleteIdea(st, id)
  {
  }

  /**
   * The flag counts as set only when the slot holds exactly the string "true";
   * an absent key, "false" or any other string reads as unset.
   */
  function IsAuthenticated(st: Store): (r: bool)
    ensures r <==> st.auth.Some? && st.auth.value == "true"
    ensures st.auth.None? ==> !r
  {
    st.auth == Some("true")
  }

  /** Stores `value.toString()`; reading the flag back yields `value`. */
  function SetAuthenticated(st: Store, value: bool): (r: Store)
    ensures IsAuthenticated(r) == value
    ensures r.videos == st.videos && r.ideas == st.ideas
  {
    st.(auth := Some(if value then "true" else "false"))
  }

  /** Removes the flag, which then reads as not authenticated. */
  function Logout(st: Store): (r: Store)
    ensures !IsAuthenticated(r) && r.auth.None?
    ensures r.videos == st.videos && r.ideas == st.ideas
  {
    st.(auth := None)
  }
}
