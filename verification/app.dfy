/**
 * The application controller: in-memory mirrors of the three store slots, the
 * handlers the views call, and the authentication gate that decides which views
 * exist. Each collection handler writes through the store and then re-reads the
 * collection, so the mirror equals the stored list after every handler.
 * Ids and timestamps (`Date.now()`, `toISOString()`) are parameters.
 */
module App {
  import opened Wrappers
  import opened Types
  import opened Storage
  import LoginPage
  import Seqs

  /** The component's React state. */
  datatype AppState = AppState(isAuthenticated: bool, videos: seq<Video>, ideas: seq<VideoIdea>)

  /** The controller's state together with the store it writes to. */
  datatype World = World(app: AppState, store: Store)

  /** The state before the initialisation effect has run. */
  const InitialState := AppState(false, [], [])

  /** The in-memory state mirrors the store exactly. */
  predicate Synced(w: World) {
    && w.app.isAuthenticated == IsAuthenticated(w.store)
    && w.app.videos == GetVideos(w.store)
    && w.app.ideas == GetIdeas(w.store)
  }

  /** The mount effect: read the flag and both lists once and publish them. */
  function Init(store: Store): (w: World)
    ensures Synced(w) && w.store == store
  {
    World(AppState(IsAuthenticated(store), GetVideos(store), GetIdeas(store)), store)
  }

  /** Sets the stored flag and the state flag; the collections are not touched. */
  function HandleLogin(w: World): (r: World)
    ensures IsAuthenticated(r.store) && r.app.isAuthenticated
    ensures r.app.videos == w.app.videos && r.app.ideas == w.app.ideas
    ensures r.store.videos == w.store.videos && r.store.ideas == w.store.ideas
    ensures Synced(w) ==> Synced(r)
  {
    World(w.app.(isAuthenticated := true), SetAuthenticated(w.store, true))
  }

  /** Removes the stored flag and clears the state flag; videos and ideas stay, both stored and in memory. */
  function HandleLogout(w: World): (r: World)
    ensures !IsAuthenticated(r.store) && !r.app.isAuthenticated
    ensures r.app.videos == w.app.videos && r.app.ideas == w.app.ideas
    ensures r.store.videos == w.store.videos && r.store.ideas == w.store.ideas
    ensures Synced(w) ==> Synced(r)
  {
    World(w.app.(isAuthenticated := false), Storage.Logout(w.store))
  }

  /** The record `handleUploadVideo` builds: the form's data, the given id and time, no thumbnail. */
  function NewVideo(data: VideoData, id: string, now: string): Video {
    Video(id, data.title, data.description, data.date, data.videoUrl, None, now)
  }

  /** Stores a new video at the head of the list and re-reads the list. */
  function HandleUploadVideo(w: World, data: VideoData, id: string, now: string): (r: World)
    ensures r.app.videos == GetVideos(r.store)
    ensures |r.app.videos| == |GetVideos(w.store)| + 1 && r.app.videos[1..] == GetVideos(w.store)
    ensures var v := r.app.videos[0];
      && v.id == id && v.uploadedAt == now && v.thumbnail.None?
      && v.title == data.title && v.description == data.description
      && v.date == data.date && v.videoUrl == data.videoUrl
    ensures r.app.ideas == w.app.ideas && r.app.isAuthenticated == w.app.isAuthenticated
    ensures r.store.ideas == w.store.ideas && r.store.auth == w.store.auth
    ensures Synced(w) ==> Synced(r)
  {
    var s := AddVideo(w.store, NewVideo(data, id, now));
    World(w.app.(videos := GetVideos(s)), s)
  }

  /** Deletes every video with the id and re-reads the list. */
  function HandleDeleteVideo(w: World, id: string): (r: World)
    ensures r.app.videos == GetVideos(r.store)
    ensures forall v :: v in r.app.videos <==> v in GetVideos(w.store) && v.id != id
    ensures forall v: Video :: v.id != id ==> multiset(r.app.videos)[v] == multiset(GetVideos(w.store))[v]
    ensures Seqs.IsSubsequence(r.app.videos, GetVideos(w.store))
    ensures r.app.ideas == w.app.ideas && r.app.isAuthenticated == w.app.isAuthenticated
    ensures r.store.ideas == w.store.ideas && r.store.auth == w.store.auth
    ensures Synced(w) ==> Synced(r)
  {
    var s := Storage.DeleteVideo(w.store, id);
    World(w.app.(videos := GetVideos(s)), s)
  }

  /** The record `handleAddIdea` builds: the form's data, the given id and time. */
  function NewIdea(data: IdeaData, id: string, now: string): VideoIdea {
    VideoIdea(id, data.title, data.description, now)
  }

  /** Stores a new idea at the head of the list and re-reads the list. */
  function HandleAddIdea(w: World, data: IdeaData, id: string, now: string): (r: World)
    ensures r.app.ideas == GetIdeas(r.store)
    ensures |r.app.ideas| == |GetIdeas(w.store)| + 1 && r.app.ideas[1..] == GetIdeas(w.store)
    ensures var i := r.app.ideas[0];
      i.id == id && i.createdAt == now && i.title == data.title && i.description == data.description
    ensures r.app.videos == w.app.videos && r.app.isAuthenticated == w.app.isAuthenticated
    ensures r.store.videos == w.store.videos && r.store.auth == w.store.auth
    ensures Synced(w) ==> Synced(r)
  {
    var s := AddIdea(w.store, NewIdea(data, id, now));
    World(w.app.(ideas := GetIdeas(s)), s)
  }

  /**
   * Merges the patch into the first idea with the id and re-reads the list; an
   * unknown id leaves the stored list as it was.
   */
  function HandleUpdateIdea(w: World, id: string, patch: IdeaPatch): (r: World)
    ensures r.app.ideas == GetIdeas(r.store)
    ensures |r.app.ideas| == |GetIdeas(w.store)|
    ensures NoIdeaWithId(GetIdeas(w.store), id) ==> r.store == w.store && r.app.ideas == GetIdeas(w.store)
    ensures forall k :: FirstIdeaWithId(GetIdeas(w.store), id, k) ==>
              && r.app.ideas[k] == Merge(GetIdeas(w.store)[k], patch)
              && (forall j :: 0 <= j < |r.app.ideas| && j != k ==> r.app.ideas[j] == GetIdeas(w.store)[j])
    ensures r.app.videos == w.app.videos && r.app.isAuthenticated == w.app.isAuthenticated
    ensures r.store.videos == w.store.videos && r.store.auth == w.store.auth
    ensures Synced(w) ==> Synced(r)
  {
    var s := Storage.UpdateIdea(w.store, id, patch);
    World(w.app.(ideas := GetIdeas(s)), s)
  }

  /** Deletes every idea with the id and re-reads the list. */
  function HandleDeleteIdea(w: World, id: string): (r: World)
    ensures r.app.ideas == GetIdeas(r.store)
    ensures forall i :: i in r.app.ideas <==> i in GetIdeas(w.store) && i.id != id
    ensures forall i: VideoIdea :: i.id != id ==> multiset(r.app.ideas)[i] == multiset(GetIdeas(w.store))[i]
    ensures Seqs.IsSubsequence(r.app.ideas, GetIdeas(w.store))
    ensures r.app.videos == w.app.videos && r.app.isAuthenticated == w.app.isAuthenticated
    ensures r.store.videos == w.store.videos && r.store.auth == w.store.auth
    ensures Synced(w) ==> Synced(r)
  {
    var s := Storage.DeleteIdea(w.store, id);
    World(w.app.(ideas := GetIdeas(s)), s)
  }

  /** Uploading a video with a fresh id and then deleting that id restores the previous list. */
  lemma UploadThenDeleteRestores(w: World, data: VideoData, id: string, now: string)
    requires forall i :: 0 <= i < |GetVideos(w.store)| ==> GetVideos(w.store)[i].id != id
    ensures GetVideos(HandleDeleteVideo(HandleUploadVideo(w, data, id, now), id).store) == GetVideos(w.store)
  {
    var before := GetVideos(w.store);
    var keep := (v: Video) => v.id != id;
    var up := HandleUploadVideo(w, data, id, now);
    assert GetVideos(up.store) == [NewVideo(data, id, now)] + before;
    assert Seqs.Filter(GetVideos(up.store), keep) == Seqs.Filter(before, keep);
    Seqs.FilterKeepsAll(before, keep);
  }

  /** Adding an idea with a fresh id and then deleting that id restores the previous list. */
  lemma AddIdeaThenDeleteRestores(w: World, data: IdeaData, id: string, now: string)
    requires forall i :: 0 <= i < |GetIdeas(w.store)| ==> GetIdeas(w.store)[i].id != id
    ensures GetIdeas(HandleDeleteIdea(HandleAddIdea(w, data, id, now), id).store) == GetIdeas(w.store)
  {
    var before := GetIdeas(w.store);
    var keep := (i: VideoIdea) => i.id != id;
    var added := HandleAddIdea(w, data, id, now);
    assert GetIdeas(added.store) == [NewIdea(data, id, now)] + before;
    assert Seqs.Filter(GetIdeas(added.store), keep) == Seqs.Filter(before, keep);
    Seqs.FilterKeepsAll(before, keep);
  }

  /** Adding an idea to an empty store, retitling it and deleting it leaves no ideas, with the expected list at each step. */
  lemma IdeaLifecycle(id: string, now: string)
    ensures var w1 := HandleAddIdea(Init(EmptyStore), IdeaData("Title A", "Desc A"), id, now);
      var w2 := HandleUpdateIdea(w1, id, IdeaPatch(None, Some("Title B"), None, None));
      var w3 := HandleDeleteIdea(w2, id);
      && w1.app.ideas == [VideoIdea(id, "Title A", "Desc A", now)]
      && w2.app.ideas == [VideoIdea(id, "Title B", "Desc A", now)]
      && w3.app.ideas == []
  {
  }

  /** What the component renders: the login page, or the routed views over the collections. */
  datatype Screen = LoginScreen | MainScreen(videos: seq<Video>, ideas: seq<VideoIdea>)

  /** The authentication gate: the collections are visible only once authenticated. */
  function Render(app: AppState): (r: Screen)
    ensures r.LoginScreen? <==> !app.isAuthenticated
    ensures r.MainScreen? ==> r.videos == app.videos && r.ideas == app.ideas
  {
    if !app.isAuthenticated then LoginScreen else MainScreen(app.videos, app.ideas)
  }

  /** Before the mount effect has run, the application shows the login page. */
  lemma InitialStateShowsLogin()
    ensures Render(InitialState) == LoginScreen
  {
  }

  /** What a user can do in some view. */
  datatype Event =
    | SubmitCode(code: string)
    | LogoutClicked
    | UploadSubmitted(data: VideoData, id: string, now: string)
    | DeleteVideoClicked(videoId: string)
    | AddIdeaSubmitted(ideaData: IdeaData, ideaId: string, ideaNow: string)
    | UpdateIdeaSubmitted(updateId: string, patch: IdeaPatch)
    | DeleteIdeaClicked(ideaDeleteId: string)

  /**
   * Dispatches an event through the view that is rendered. While unauthenticated only
   * the login page exists; once authenticated the login page is gone.
   */
  function Step(w: World, e: Event): (r: World)
    ensures !w.app.isAuthenticated ==> r.store.videos == w.store.videos && r.store.ideas == w.store.ideas
    ensures !w.app.isAuthenticated ==> r.app.videos == w.app.videos && r.app.ideas == w.app.ideas
    ensures !w.app.isAuthenticated && !(e.SubmitCode? && e.code == LoginPage.AccessCode) ==> r == w
    ensures r.app.isAuthenticated != w.app.isAuthenticated <==>
              (!w.app.isAuthenticated && e.SubmitCode? && e.code == LoginPage.AccessCode)
              || (w.app.isAuthenticated && e.LogoutClicked?)
    ensures Synced(w) ==> Synced(r)
  {
    match Render(w.app)
    case LoginScreen =>
      if e.SubmitCode? && LoginPage.Submit(LoginPage.LoginForm(e.code, "")).loggedIn then HandleLogin(w) else w
    case MainScreen(_, _) =>
      match e
      case SubmitCode(_) => w
      case LogoutClicked => HandleLogout(w)
      case UploadSubmitted(data, id, now) => HandleUploadVideo(w, data, id, now)
      case DeleteVideoClicked(id) => HandleDeleteVideo(w, id)
      case AddIdeaSubmitted(data, id, now) => HandleAddIdea(w, data, id, now)
      case UpdateIdeaSubmitted(id, patch) => HandleUpdateIdea(w, id, patch)
      case DeleteIdeaClicked(id) => HandleDeleteIdea(w, id)
  }

  /** Runs a sequence of events in order. */
  function Run(w: World, events: seq<Event>): World
    decreases |events|
  {
    if events == [] then w else Run(Step(w, events[0]), events[1..])
  }

  /** From a freshly initialised application, the mirror equals the store after any sequence of events. */
  lemma {:induction false} RunStaysSynced(w: World, events: seq<Event>)
    requires Synced(w)
    ensures Synced(Run(w, events))
    decreases |events|
  {
    if events != [] {
      RunStaysSynced(Step(w, events[0]), events[1..]);
    }
  }

  /** While unauthenticated, a sequence of events without the access code changes nothing at all, stored or in memory. */
  lemma {:induction false} LockedRunKeepsCollections(w: World, events: seq<Event>)
    requires !w.app.isAuthenticated
    requires forall i :: 0 <= i < |events| ==> !(events[i].SubmitCode? && events[i].code == LoginPage.AccessCode)
    ensures Run(w, events) == w
    decreases |events|
  {
    if events != [] {
      LockedRunKeepsCollections(Step(w, events[0]), events[1..]);
    }
  }
}
