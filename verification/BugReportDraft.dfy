/**
 The object URLs of a bug report's screenshots: one for each attached file, minted
 when it is attached and revoked when it goes, whatever the form does meanwhile.
 A file is its identity, and an object URL the number of its creation.
 */
module BugReportDraft {
  import opened Wrappers

  type File = nat

  type Url = nat

  /** What the browser holds: every URL ever created with its file, those still live, and how often each was revoked. */
  datatype Registry = Registry(created: seq<File>, live: set<Url>, revoked: multiset<Url>)

  datatype Draft = Draft(images: seq<File>, previews: seq<Url>, urls: map<File, Url>, boardShot: Option<File>)

  const NEW_DRAFT := Draft([], [], map[], None)

  function Mint(urls: map<File, Url>, created: seq<File>, next: seq<File>): (map<File, Url>, seq<File>) {
    if next == [] then (urls, created)
    else
      var (u, c) := Mint(urls, created, next[..|next| - 1]);
      var file := next[|next| - 1];
      if file in u then (u, c) else (u[file := |c|], c + [file])
  }

  lemma {:induction false} MintCovers(urls: map<File, Url>, created: seq<File>, next: seq<File>)
    ensures var (u, c) := Mint(urls, created, next);
            && u.Keys == urls.Keys + (set f <- next) && |created| <= |c| && created == c[..|created|]
            && (forall f <- urls :: u[f] == urls[f])
            && (forall f <- u :: f !in urls ==> |created| <= u[f] < |c| && c[u[f]] == f)
            && (forall i :: |created| <= i < |c| ==> c[i] in u && u[c[i]] == i && c[i] !in urls)
  {
    if next != [] {
      MintCovers(urls, created, next[..|next| - 1]);
      assert next == next[..|next| - 1] + [next[|next| - 1]];
    }
  }

  function PreviewsOf(urls: map<File, Url>, images: seq<File>): seq<Url> {
    seq(|images|, i requires 0 <= i < |images| => if images[i] in urls then urls[images[i]] else 0)
  }

  function KeptUrls(urls: map<File, Url>, next: seq<File>): map<File, Url> {
    map f <- urls | f in next :: urls[f]
  }

  function DroppedUrls(urls: map<File, Url>, next: seq<File>): set<Url> {
    set f <- urls | f !in next :: urls[f]
  }

  /** The URLs minted while the count of created ones went from `lo` to `hi`. */
  function UrlsBetween(lo: nat, hi: nat): (r: set<Url>)
    ensures forall u: Url :: u in r <==> lo <= u < hi
  {
    if hi <= lo then {} else UrlsBetween(lo, hi - 1) + {hi - 1}
  }

  function OnSetImages(d: Draft, r: Registry, next: seq<File>): (Draft, Registry) {
    var dropped := DroppedUrls(d.urls, next);
    var (urls, created) := Mint(KeptUrls(d.urls, next), r.created, next);
    (Draft(next, PreviewsOf(urls, next), urls, d.boardShot),
     Registry(created, r.live - dropped + UrlsBetween(|r.created|, |created|), r.revoked + multiset(dropped)))
  }

  function OnDispose(d: Draft, r: Registry): (Draft, Registry) {
    (NEW_DRAFT, Registry(r.created, r.live - d.urls.Values, r.revoked + multiset(d.urls.Values)))
  }

  // ---- The class ----

  class Browser {
    var created: seq<File>
    var live: set<Url>
    var revoked: multiset<Url>

    function State(): Registry
      reads this
    {
      Registry(created, live, revoked)
    }

    method CreateObjectURL(file: File) returns (url: Url)
      modifies this
      ensures url == |old(created)| && created == old(created) + [file]
      ensures live == old(live) + {url} && revoked == old(revoked)
    {
      url := |created|;
      created, live := created + [file], live + {url};
    }

    method RevokeObjectURL(url: Url)
      modifies this
      ensures created == old(created) && live == old(live) - {url} && revoked == old(revoked) + multiset{url}
    {
      live, revoked := live - {url}, revoked + multiset{url};
    }
  }

  /** One URL to a file, and no URL for two files. */
  predicate OneToOne(urls: map<File, Url>) {
    forall f, g :: f in urls && g in urls && f != g ==> urls[f] != urls[g]
  }

  function NotYetDropped(all: map<File, Url>, rest: set<File>, next: seq<File>): map<File, Url> {
    map f <- all | f in rest || f in next :: all[f]
  }

  function DroppedSoFar(all: map<File, Url>, rest: set<File>, next: seq<File>): set<Url> {
    set f <- all | f !in rest && f !in next :: all[f]
  }

  lemma DropStep(all: map<File, Url>, rest: set<File>, next: seq<File>, file: File)
    requires OneToOne(all) && file in rest && rest <= all.Keys
    ensures file in next ==>
        && NotYetDropped(all, rest - {file}, next) == NotYetDropped(all, rest, next)
        && DroppedSoFar(all, rest - {file}, next) == DroppedSoFar(all, rest, next)
    ensures file !in next ==>
        && NotYetDropped(all, rest - {file}, next) == NotYetDropped(all, rest, next) - {file}
        && all[file] !in DroppedSoFar(all, rest, next)
        && DroppedSoFar(all, rest - {file}, next) == DroppedSoFar(all, rest, next) + {all[file]}
  {
  }

  class BugReportDraft {
    var images: seq<File>
    var previews: seq<Url>
    var urls: map<File, Url>
    var boardShot: Option<File>
    const browser: Browser

    function State(): Draft
      reads this
    {
      Draft(images, previews, urls, boardShot)
    }

    constructor (browser: Browser)
      ensures this.browser == browser && State() == NEW_DRAFT
    {
      this.browser := browser;
      images, previews, urls, boardShot := [], [], map[], None;
    }

    /** Revokes the URLs of the files not in `next` and forgets them. */
    method DropOthers(next: seq<File>)
      requires OneToOne(urls)
      modifies this`urls, browser
      ensures urls == KeptUrls(old(urls), next)
      ensures browser.created == old(browser.created)
      ensures browser.live == old(browser.live) - DroppedUrls(old(urls), next)
      ensures browser.revoked == old(browser.revoked) + multiset(DroppedUrls(old(urls), next))
    {
      var rest := urls.Keys;
      ghost var all := urls;
      while rest != {}
        invariant rest <= all.Keys && browser.created == old(browser.created)
        invariant urls == NotYetDropped(all, rest, next)
        invariant browser.live == old(browser.live) - DroppedSoFar(all, rest, next)
        invariant browser.revoked == old(browser.revoked) + multiset(DroppedSoFar(all, rest, next))
        decreases |rest|
      {
        var file :| file in rest;
        DropStep(all, rest, next, file);
        rest := rest - {file};
        if file !in next {
          browser.RevokeObjectURL(urls[file]);
          urls := urls - {file};
        }
      }
      assert DroppedSoFar(all, {}, next) == DroppedUrls(all, next);
      assert NotYetDropped(all, {}, next) == KeptUrls(all, next);
    }

    /** Mints a URL for each file of `next` that has none. */
    method MintMissing(next: seq<File>)
      modifies this`urls, browser
      ensures (urls, browser.created) == Mint(old(urls), old(browser.created), next)
      ensures browser.live == old(browser.live) + UrlsBetween(|old(browser.created)|, |browser.created|)
      ensures browser.revoked == old(browser.revoked)
    {
      ghost var n := |browser.created|;
      for i := 0 to |next|
        invariant (urls, browser.created) == Mint(old(urls), old(browser.created), next[..i])
        invariant n <= |browser.created| && browser.revoked == old(browser.revoked)
        invariant browser.live == old(browser.live) + UrlsBetween(n, |browser.created|)
      {
        assert next[..i + 1][..i] == next[..i];
        if next[i] !in urls {
          var url := browser.CreateObjectURL(next[i]);
          urls := urls[next[i] := url];
        }
      }
      assert next[..|next|] == next;
    }

    method SetImages(next: seq<File>)
      requires OneToOne(urls)
      modifies this, browser
      ensures (State(), browser.State()) == OnSetImages(old(State()), old(browser.State()), next)
    {
      DropOthers(next);
      MintMissing(next);
      images := next;
      previews := PreviewsOf(urls, next);
    }

    method Dispose()
      requires OneToOne(urls)
      modifies this, browser
      ensures (State(), browser.State()) == OnDispose(old(State()), old(browser.State()))
    {
      DropOthers([]);
      assert DroppedUrls(old(urls), []) == old(urls).Values;
      urls, previews, images, boardShot := map[], [], [], None;
    }
  }

  // ---- A tab's life ----

  /** The one draft in progress, if any, and the browser it lives in. */
  datatype Tab = Tab(current: Option<Draft>, registry: Registry)

  datatype Event = OpenDraft | SetImagesTo(next: seq<File>) | ShootBoard(shot: Option<File>) | DiscardDraft

  function Next(t: Tab, ev: Event): Tab {
    match ev
    case OpenDraft => if t.current.Some? then t else t.(current := Some(NEW_DRAFT))
    case SetImagesTo(next) =>
      if t.current.None? then t
      else
        var (d, r) := OnSetImages(t.current.value, t.registry, next);
        Tab(Some(d), r)
    case ShootBoard(shot) => if t.current.None? then t else t.(current := Some(t.current.value.(boardShot := shot)))
    case DiscardDraft =>
      if t.current.None? then t
      else
        var (_, r) := OnDispose(t.current.value, t.registry);
        Tab(None, r)
  }

  ghost predicate Run(ts: seq<Tab>, evs: seq<Event>) {
    && |ts| == |evs| + 1 && ts[0] == Tab(None, Registry([], {}, multiset{}))
    && forall i :: 0 <= i < |evs| ==> ts[i + 1] == Next(ts[i], evs[i])
  }

  function UrlsOf(t: Tab): map<File, Url> {
    if t.current.Some? then t.current.value.urls else map[]
  }

  ghost predicate DraftSound(d: Draft, r: Registry) {
    && d.urls.Keys == (set f <- d.images)
    && (forall f <- d.urls :: d.urls[f] < |r.created| && r.created[d.urls[f]] == f)
    && |d.previews| == |d.images|
    && forall i :: 0 <= i < |d.images| ==> d.images[i] in d.urls && d.previews[i] == d.urls[d.images[i]]
  }

  ghost predicate Sound(t: Tab) {
    && (t.current.Some? ==> DraftSound(t.current.value, t.registry))
    && t.registry.live == UrlsOf(t).Values
    && forall u: Url :: t.registry.revoked[u] == (if u < |t.registry.created| && u !in t.registry.live then 1 else 0)
  }

  lemma SoundIsOneToOne(t: Tab)
    requires Sound(t) && t.current.Some?
    ensures OneToOne(t.current.value.urls)
  {
    var urls := t.current.value.urls;
    forall f, g | f in urls && g in urls && f != g ensures urls[f] != urls[g] {
      assert t.registry.created[urls[f]] == f && t.registry.created[urls[g]] == g;
    }
  }

  lemma SetImagesDraft(d: Draft, r: Registry, next: seq<File>)
    requires DraftSound(d, r)
    ensures var (e, s) := OnSetImages(d, r, next);
            && DraftSound(e, s) && e.images == next && r.created <= s.created
            && forall f <- d.images :: f in next ==> f in d.urls && f in e.urls && e.urls[f] == d.urls[f]
  {
    MintCovers(KeptUrls(d.urls, next), r.created, next);
    var (e, s) := OnSetImages(d, r, next);
    forall f | f in e.urls ensures e.urls[f] < |s.created| && s.created[e.urls[f]] == f {
      if f in d.urls && f in next { assert s.created[..|r.created|][d.urls[f]] == f; }
    }
  }

  lemma SetImagesLive(d: Draft, r: Registry, next: seq<File>, u: Url)
    requires DraftSound(d, r) && r.live == d.urls.Values
    requires r.revoked[u] == (if u < |r.created| && u !in r.live then 1 else 0)
    ensures var (e, s) := OnSetImages(d, r, next);
            && (u in s.live <==> u in e.urls.Values)
            && s.revoked[u] == (if u < |s.created| && u !in s.live then 1 else 0)
  {
    var kept := KeptUrls(d.urls, next);
    MintCovers(kept, r.created, next);
    var (e, s) := OnSetImages(d, r, next);
    var dropped := DroppedUrls(d.urls, next);
    if u in dropped {
      var f :| f in d.urls && f !in next && d.urls[f] == u;
      assert u in r.live && u < |r.created|;
    }
    if u in e.urls.Values {
      var f :| f in e.urls && e.urls[f] == u;
      if f in kept { assert u in d.urls.Values && u !in dropped by { OtherFile(d, r, f); } }
    }
    if u in s.live {
      if u < |r.created| {
        var f :| f in d.urls && d.urls[f] == u;
        assert f in kept && e.urls[f] == u;
      } else {
        assert s.created[u] in e.urls && e.urls[s.created[u]] == u;
      }
    }
  }

  lemma OtherFile(d: Draft, r: Registry, f: File)
    requires DraftSound(d, r) && f in d.urls
    ensures forall g <- d.urls :: d.urls[g] == d.urls[f] ==> g == f
  {
    forall g | g in d.urls && d.urls[g] == d.urls[f] ensures g == f {
      assert r.created[d.urls[g]] == g && r.created[d.urls[f]] == f;
    }
  }

  lemma NextKeepsSound(t: Tab, ev: Event)
    requires Sound(t)
    ensures Sound(Next(t, ev))
  {
    if t.current.Some? && ev.SetImagesTo? {
      var d, r := t.current.value, t.registry;
      SetImagesDraft(d, r, ev.next);
      var (e, s) := OnSetImages(d, r, ev.next);
      forall u: Url
        ensures (u in s.live <==> u in e.urls.Values) && s.revoked[u] == (if u < |s.created| && u !in s.live then 1 else 0)
      {
        SetImagesLive(d, r, ev.next, u);
      }
    } else if t.current.Some? && ev.DiscardDraft? {
      var urls, r := t.current.value.urls, t.registry;
      forall u: Url ensures Next(t, ev).registry.revoked[u] == (if u < |r.created| then 1 else 0) {
        if u in urls.Values { var f :| f in urls && urls[f] == u; }
      }
    }
  }

  lemma {:induction false} RunIsSound(ts: seq<Tab>, evs: seq<Event>, i: nat)
    requires Run(ts, evs) && i < |ts|
    ensures Sound(ts[i])
  {
    if i == 0 {
      assert forall u: Url :: ts[0].registry.revoked[u] == 0;
      assert UrlsOf(ts[0]).Values == {};
    } else {
      RunIsSound(ts, evs, i - 1);
      NextKeepsSound(ts[i - 1], evs[i - 1]);
    }
  }

  /**
   Over any life of a tab: the live URLs are exactly those of the attached files, each
   URL belongs to the one file it was created for, every other URL has been revoked
   once and no live one ever, and the previews line up with the images.
   */
  lemma UrlsAreTheImages(ts: seq<Tab>, evs: seq<Event>, i: nat)
    requires Run(ts, evs) && i < |ts|
    ensures var r, urls := ts[i].registry, UrlsOf(ts[i]);
            && r.live == urls.Values && OneToOne(urls)
            && (forall u: Url :: u < |r.created| ==> u in r.live || r.revoked[u] == 1)
            && (forall u: Url :: r.revoked[u] <= 1 && (u in r.live ==> r.revoked[u] == 0))
    ensures ts[i].current.None? ==> ts[i].registry.live == {}
    ensures ts[i].current.Some? ==>
              var d := ts[i].current.value;
              && |d.previews| == |d.images|
              && forall k :: 0 <= k < |d.images| ==>
                   && d.previews[k] in ts[i].registry.live && d.previews[k] < |ts[i].registry.created|
                   && ts[i].registry.created[d.previews[k]] == d.images[k]
  {
    RunIsSound(ts, evs, i);
    if ts[i].current.Some? { SoundIsOneToOne(ts[i]); }
  }

  /** A file that stays attached keeps its URL, however the others come and go. */
  lemma {:induction false} KeptFilesKeepTheirUrl(ts: seq<Tab>, evs: seq<Event>, i: nat, j: nat, file: File)
    requires Run(ts, evs) && i <= j < |ts|
    requires forall k :: i <= k <= j ==> ts[k].current.Some? && file in ts[k].current.value.images
    ensures file in UrlsOf(ts[i]) && file in UrlsOf(ts[j]) && UrlsOf(ts[j])[file] == UrlsOf(ts[i])[file]
    decreases j
  {
    RunIsSound(ts, evs, j);
    if i < j {
      KeptFilesKeepTheirUrl(ts, evs, i, j - 1, file);
      RunIsSound(ts, evs, j - 1);
      if evs[j - 1].SetImagesTo? {
        SetImagesDraft(ts[j - 1].current.value, ts[j - 1].registry, evs[j - 1].next);
      }
    }
  }

  /** Setting the pictures leaves exactly those, each with its preview at its own place. */
  lemma SettingReplacesThePictures(d: Draft, r: Registry, next: seq<File>)
    requires DraftSound(d, r)
    ensures var (e, s) := OnSetImages(d, r, next);
            && e.images == next && |e.previews| == |next|
            && (forall f :: f in e.urls <==> f in next)
            && (forall i :: 0 <= i < |next| ==> next[i] in e.urls && e.previews[i] == e.urls[next[i]])
            && (forall f <- d.urls :: f in next ==> e.urls[f] == d.urls[f])
            && (forall f <- d.urls :: f !in next ==> s.revoked[d.urls[f]] == r.revoked[d.urls[f]] + 1)
  {
    SetImagesDraft(d, r, next);
    MintCovers(KeptUrls(d.urls, next), r.created, next);
    SoundValues(d, r);
  }

  lemma SoundValues(d: Draft, r: Registry)
    requires DraftSound(d, r)
    ensures forall f <- d.urls :: d.urls[f] in d.urls.Values
  {
  }
}
