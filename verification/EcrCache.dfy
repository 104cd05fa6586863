/** The tag cache of the apps against the registry, and the shared copies of its listings. */
module EcrCache {
  import opened Wrappers

  // Times are positive; 0 stands for the zero time.
  datatype RepoTag = RepoTag(tag: string, pushedAt: nat)

  datatype Image = Image(tags: seq<string>, pushedAt: Option<nat>)

  // The tagged images of one repository: each tag, and when it was pushed if that is known.
  type Registry = map<string, Option<nat>>

  // --- listings ---

  function TagsOf(image: Image): (r: seq<RepoTag>)
  {
    if image.pushedAt.None? then []
    else seq(|image.tags|, i requires 0 <= i < |image.tags| => RepoTag(image.tags[i], image.pushedAt.value))
  }

  function AllTags(images: seq<Image>): seq<RepoTag> {
    if images == [] then [] else AllTags(images[..|images| - 1]) + TagsOf(images[|images| - 1])
  }

  predicate IsNewestFirst(tags: seq<RepoTag>) {
    forall i, j :: 0 <= i < j < |tags| ==> tags[i].pushedAt >= tags[j].pushedAt
  }

  function Insert(t: RepoTag, tags: seq<RepoTag>): seq<RepoTag> {
    if tags == [] || t.pushedAt >= tags[0].pushedAt then [t] + tags
    else [tags[0]] + Insert(t, tags[1..])
  }

  lemma {:induction false} InsertHasAll(t: RepoTag, tags: seq<RepoTag>)
    ensures multiset(Insert(t, tags)) == multiset(tags) + multiset{t}
    ensures forall x :: x in Insert(t, tags) <==> x == t || x in tags
  {
    if !(tags == [] || t.pushedAt >= tags[0].pushedAt) {
      InsertHasAll(t, tags[1..]);
      assert tags == [tags[0]] + tags[1..];
    }
  }

  lemma PrependKeepsOrder(t: RepoTag, tags: seq<RepoTag>)
    requires IsNewestFirst(tags) && forall x | x in tags :: t.pushedAt >= x.pushedAt
    ensures IsNewestFirst([t] + tags)
  {
  }

  lemma {:induction false} InsertKeepsOrder(t: RepoTag, tags: seq<RepoTag>)
    requires IsNewestFirst(tags)
    ensures IsNewestFirst(Insert(t, tags))
  {
    if tags == [] || t.pushedAt >= tags[0].pushedAt {
      PrependKeepsOrder(t, tags);
    } else {
      InsertKeepsOrder(t, tags[1..]);
      InsertHasAll(t, tags[1..]);
      PrependKeepsOrder(tags[0], Insert(t, tags[1..]));
    }
  }

  // The order of tags pushed at the same time is not significant.
  function NewestFirst(tags: seq<RepoTag>): (r: seq<RepoTag>)
    ensures IsNewestFirst(r) && multiset(r) == multiset(tags)
    ensures forall x :: x in r <==> x in tags
  {
    if tags == [] then []
    else
      assert tags == [tags[0]] + tags[1..];
      InsertHasAll(tags[0], NewestFirst(tags[1..]));
      InsertKeepsOrder(tags[0], NewestFirst(tags[1..]));
      Insert(tags[0], NewestFirst(tags[1..]))
  }

  // imagesToRepoTags
  method ImagesToRepoTags(images: seq<Image>) returns (all: seq<RepoTag>)
    ensures all == NewestFirst(AllTags(images))
  {
    all := [];
    for i := 0 to |images|
      invariant all == AllTags(images[..i])
    {
      assert images[..i + 1][..i] == images[..i];
      if images[i].pushedAt.Some? {
        ghost var before := all;
        for k := 0 to |images[i].tags|
          invariant all == before + TagsOf(images[i])[..k]
        {
          all := all + [RepoTag(images[i].tags[k], images[i].pushedAt.value)];
        }
        assert TagsOf(images[i])[..|images[i].tags|] == TagsOf(images[i]);
      }
    }
    assert images[..|images|] == images;
    all := NewestFirst(all);
  }

  // --- filtering ---

  function Filter(tags: seq<RepoTag>, pattern: string -> bool): (r: seq<RepoTag>)
    ensures forall x :: x in r <==> x in tags && pattern(x.tag)
  {
    if tags == [] then []
    else
      var last := tags[|tags| - 1];
      assert tags == tags[..|tags| - 1] + [last];
      Filter(tags[..|tags| - 1], pattern) + (if pattern(last.tag) then [last] else [])
  }

  function Names(tags: seq<RepoTag>): (r: seq<string>)
    ensures |r| == |tags| && forall i :: 0 <= i < |tags| ==> r[i] == tags[i].tag
  {
    seq(|tags|, i requires 0 <= i < |tags| => tags[i].tag)
  }

  function HeadTime(tags: seq<RepoTag>): nat {
    if tags == [] then 0 else tags[0].pushedAt
  }

  lemma {:induction false} FilterKeepsOrder(tags: seq<RepoTag>, pattern: string -> bool)
    requires IsNewestFirst(tags)
    ensures IsNewestFirst(Filter(tags, pattern))
    decreases |tags|
  {
    if tags != [] {
      var last := tags[|tags| - 1];
      var before := tags[..|tags| - 1];
      FilterKeepsOrder(before, pattern);
      forall x | x in Filter(before, pattern) ensures x.pushedAt >= last.pushedAt {
        assert x in before;
      }
    }
  }

  // The time of the last push, or the zero time when there is none.
  ghost predicate IsNewestOf(tags: seq<RepoTag>, newest: nat) {
    && (forall x | x in tags :: x.pushedAt <= newest)
    && (newest == 0 || exists x :: x in tags && x.pushedAt == newest)
  }

  lemma NothingIsNewest()
    ensures IsNewestOf([], 0)
  {
  }

  lemma NewestGrows(tags: seq<RepoTag>, newest: nat, t: RepoTag)
    requires IsNewestOf(tags, newest)
    ensures IsNewestOf(tags + [t], if t.pushedAt > newest then t.pushedAt else newest)
  {
    assert t in tags + [t];
    if newest != 0 {
      var x :| x in tags && x.pushedAt == newest;
      assert x in tags + [t];
    }
  }

  // filterRepoTags, on a listing that is newest first: the newest push is that of the head.
  method FilterRepoTags(tags: seq<RepoTag>, pattern: string -> bool)
    returns (filtered: seq<string>, withTime: seq<RepoTag>, newest: nat)
    ensures withTime == Filter(tags, pattern) && filtered == Names(withTime)
    ensures IsNewestOf(withTime, newest)
    ensures IsNewestFirst(tags) ==> newest == HeadTime(withTime)
  {
    hide IsNewestOf;
    filtered, withTime, newest := [], [], 0;
    NothingIsNewest();
    for i := 0 to |tags|
      invariant withTime == Filter(tags[..i], pattern) && filtered == Names(withTime)
      invariant IsNewestOf(withTime, newest)
    {
      assert tags[..i + 1][..i] == tags[..i];
      if pattern(tags[i].tag) {
        NewestGrows(withTime, newest, tags[i]);
        filtered := filtered + [tags[i].tag];
        withTime := withTime + [tags[i]];
        if tags[i].pushedAt > newest {
          newest := tags[i].pushedAt;
        }
      }
    }
    assert tags[..|tags|] == tags;
    if IsNewestFirst(tags) {
      FilterKeepsOrder(tags, pattern);
      HeadIsNewest(withTime, newest);
    }
  }

  lemma HeadIsNewest(tags: seq<RepoTag>, newest: nat)
    requires IsNewestFirst(tags) && IsNewestOf(tags, newest)
    ensures newest == HeadTime(tags)
  {
    if tags != [] {
      assert tags[0] in tags;
    }
  }

  // --- one app ---

  datatype App = App(
    pattern: string -> bool,
    repo: string,
    tags: seq<string>,
    tagsWithTime: seq<RepoTag>,
    newestPush: nat)

  // What a newest-first listing of the repository puts into the cache.
  function Load(a: App, listing: seq<RepoTag>): App {
    var withTime := Filter(listing, a.pattern);
    a.(tags := Names(withTime), tagsWithTime := withTime, newestPush := HeadTime(withTime))
  }

  // refresh replaces the list only by one with a later push, or an empty one.
  function Refreshed(a: App, listing: seq<RepoTag>): App {
    if HeadTime(Filter(listing, a.pattern)) > a.newestPush || a.tags == [] then Load(a, listing) else a
  }

  // The cached list agrees with the registry.
  ghost predicate IsSound(a: App, reg: Registry) {
    && IsNewestFirst(a.tagsWithTime)
    && a.tags == Names(a.tagsWithTime)
    && a.newestPush == HeadTime(a.tagsWithTime)
    && forall x | x in a.tagsWithTime :: a.pattern(x.tag) && x.tag in reg && reg[x.tag] == Some(x.pushedAt)
  }

  // A listing of the repository as it is, or as it was before tags were added.
  ghost predicate IsPartialListing(tags: seq<RepoTag>, reg: Registry) {
    && IsNewestFirst(tags)
    && forall x | x in tags :: x.tag in reg && reg[x.tag] == Some(x.pushedAt)
  }

  ghost predicate IsFullListing(tags: seq<RepoTag>, reg: Registry) {
    && IsPartialListing(tags, reg)
    && forall tag | tag in reg && reg[tag].Some? :: RepoTag(tag, reg[tag].value) in tags
  }

  // The registry only gains tags.
  ghost predicate Grows(reg: Registry, reg': Registry) {
    forall tag | tag in reg :: tag in reg' && reg'[tag] == reg[tag]
  }

  lemma LoadIsSound(a: App, listing: seq<RepoTag>, reg: Registry)
    requires IsPartialListing(listing, reg)
    ensures IsSound(Load(a, listing), reg)
  {
    FilterKeepsOrder(listing, a.pattern);
  }

  // A refresh keeps the cache sound, never takes the newest push back, and leaves it at the
  // newest matching push of the registry.
  lemma RefreshIsCurrent(a: App, listing: seq<RepoTag>, reg: Registry)
    requires IsSound(a, reg) && IsFullListing(listing, reg)
    ensures var a' := Refreshed(a, listing);
      && IsSound(a', reg) && a'.newestPush >= a.newestPush
      && (forall tag | tag in reg && reg[tag].Some? && a.pattern(tag) :: reg[tag].value <= a'.newestPush)
      && (a'.newestPush == 0 || exists tag :: tag in reg && a.pattern(tag) && reg[tag] == Some(a'.newestPush))
  {
    LoadIsSound(a, listing, reg);
    FilterKeepsOrder(listing, a.pattern);
    var a' := Refreshed(a, listing);
    var matching := Filter(listing, a.pattern);
    assert HeadTime(matching) <= a'.newestPush;
    forall tag | tag in reg && reg[tag].Some? && a.pattern(tag) ensures reg[tag].value <= a'.newestPush {
      assert RepoTag(tag, reg[tag].value) in matching;
    }
    if a'.tagsWithTime != [] {
      var head := a'.tagsWithTime[0];
      assert head in a'.tagsWithTime;
    }
  }

  lemma {:induction false} AllTagsOfImages(images: seq<Image>, t: RepoTag)
    ensures t in AllTags(images) <==>
      exists i :: 0 <= i < |images| && images[i].pushedAt == Some(t.pushedAt) && t.tag in images[i].tags
    decreases |images|
  {
    if images != [] {
      var n := |images| - 1;
      var last := images[n];
      AllTagsOfImages(images[..n], t);
      assert t in TagsOf(last) <==> last.pushedAt == Some(t.pushedAt) && t.tag in last.tags by {
        if last.pushedAt == Some(t.pushedAt) && t.tag in last.tags {
          var k :| 0 <= k < |last.tags| && last.tags[k] == t.tag;
          assert TagsOf(last)[k] == t;
        }
      }
      forall i | 0 <= i < n ensures images[..n][i] == images[i] {
      }
    }
  }

  // What is loaded has every matching tag of the listing, and no other.
  lemma LoadIsComplete(a: App, listing: seq<RepoTag>, tag: string)
    ensures tag in Load(a, listing).tags <==> a.pattern(tag) && exists x :: x in listing && x.tag == tag
  {
    var withTime := Filter(listing, a.pattern);
    if tag in Names(withTime) {
      var i :| 0 <= i < |withTime| && withTime[i].tag == tag;
      assert withTime[i] in withTime;
    }
    if x :| x in listing && x.tag == tag && a.pattern(tag) {
      assert x in withTime;
      var i :| 0 <= i < |withTime| && withTime[i] == x;
      assert Names(withTime)[i] == tag;
    }
  }

  method Loaded(a: App, listing: seq<RepoTag>) returns (latest: App)
    requires IsNewestFirst(listing)
    ensures latest == Load(a, listing) && latest.newestPush == HeadTime(Filter(listing, a.pattern))
  {
    hide IsNewestFirst, Filter, Names, IsNewestOf, HeadTime;
    var filtered, withTime, newest := FilterRepoTags(listing, a.pattern);
    latest := a.(tags := filtered, tagsWithTime := withTime, newestPush := newest);
  }

  // --- all apps and the shared copies ---

  datatype Caches = Caches(apps: map<string, App>, redis: map<string, seq<RepoTag>>)

  // The listing of a repository: the shared copy if there is one, else a fetched one.
  function ListingOf(redis: map<string, seq<RepoTag>>, images: map<string, seq<Image>>,
                     repo: string): Option<seq<RepoTag>> {
    if repo in redis then Some(redis[repo])
    else if repo in images then Some(NewestFirst(AllTags(images[repo])))
    else None
  }

  function LoadFrom(a: App, listing: Option<seq<RepoTag>>): App {
    match listing case Some(l) => Load(a, l) case None => a
  }

  // An empty listing is not shared.
  function Share(redis: map<string, seq<RepoTag>>, repo: string, listing: seq<RepoTag>): map<string, seq<RepoTag>> {
    if listing == [] then redis else redis[repo := listing]
  }

  function Populated(c: Caches, images: map<string, seq<Image>>): map<string, App> {
    map name | name in c.apps :: LoadFrom(c.apps[name], ListingOf(c.redis, images, c.apps[name].repo))
  }

  function Repos(apps: map<string, App>): (repos: set<string>)
    ensures forall name | name in apps :: apps[name].repo in repos
  {
    set name | name in apps :: apps[name].repo
  }

  lemma LoadKeepsRepo(a: App, listing: Option<seq<RepoTag>>)
    ensures LoadFrom(a, listing).repo == a.repo
  {
  }

  // The shared copies, with fetched listings added for repositories that had none.
  ghost predicate AreCopiesOf(redis: map<string, seq<RepoTag>>, before: map<string, seq<RepoTag>>,
                              images: map<string, seq<Image>>) {
    && (forall repo | repo in before :: repo in redis && redis[repo] == before[repo])
    && (forall repo | repo in redis && repo !in before ::
          repo in images && redis[repo] == NewestFirst(AllTags(images[repo])) && redis[repo] != [])
  }

  function SharedAfter(redis: map<string, seq<RepoTag>>, images: map<string, seq<Image>>,
                       repo: string): map<string, seq<RepoTag>> {
    if repo in redis || repo !in images then redis else Share(redis, repo, NewestFirst(AllTags(images[repo])))
  }

  // The apps of the given repositories are loaded from the listing, the others are as before.
  ghost predicate AreLoaded(apps: map<string, App>, before: map<string, App>, repos: set<string>,
                            listing: Option<seq<RepoTag>>) {
    && apps.Keys == before.Keys
    && forall name | name in before ::
         apps[name] == if before[name].repo in repos then LoadFrom(before[name], listing) else before[name]
  }

  // The apps of a repository are loaded from the listing, except for those that are to do.
  ghost predicate IsGroupLoaded(apps: map<string, App>, before: map<string, App>, repo: string, listing: seq<RepoTag>,
                                todo: set<string>) {
    && apps.Keys == before.Keys
    && forall name | name in before ::
         apps[name] == if name in todo || before[name].repo != repo then before[name] else Load(before[name], listing)
  }

  lemma NothingLoaded(before: map<string, App>, repo: string, listing: seq<RepoTag>)
    ensures IsGroupLoaded(before, before, repo, listing, before.Keys)
  {
  }

  lemma OneMoreLoaded(apps: map<string, App>, before: map<string, App>, repo: string, listing: seq<RepoTag>,
                      todo: set<string>, name: string)
    requires IsGroupLoaded(apps, before, repo, listing, todo) && name in todo && todo <= apps.Keys
    ensures apps[name].repo != repo ==> IsGroupLoaded(apps, before, repo, listing, todo - {name})
    ensures IsGroupLoaded(apps[name := Load(apps[name], listing)], before, repo, listing, todo - {name})
         || apps[name].repo != repo
  {
    hide Load;
  }

  lemma NoListingLoadsNothing(apps: map<string, App>, repo: string)
    ensures AreLoaded(apps, apps, {repo}, None)
  {
  }

  lemma AllLoaded(apps: map<string, App>, before: map<string, App>, repo: string, listing: seq<RepoTag>)
    requires IsGroupLoaded(apps, before, repo, listing, {})
    ensures AreLoaded(apps, before, {repo}, Some(listing))
  {
    hide Load;
  }

  // The apps are populated, except for those of the repositories that are to do.
  ghost predicate ArePopulated(apps: map<string, App>, before: Caches, images: map<string, seq<Image>>,
                               todo: set<string>) {
    && apps.Keys == before.apps.Keys
    && forall name | name in before.apps :: IsPopulated(apps[name], before.apps[name], before.redis, images, todo)
  }

  ghost predicate IsPopulated(a: App, before: App, redis: map<string, seq<RepoTag>>, images: map<string, seq<Image>>,
                              todo: set<string>) {
    a == if before.repo in todo then before else LoadFrom(before, ListingOf(redis, images, before.repo))
  }

  lemma NothingPopulated(before: Caches, images: map<string, seq<Image>>)
    ensures ArePopulated(before.apps, before, images, Repos(before.apps))
  {
  }

  lemma AllPopulated(apps: map<string, App>, before: Caches, images: map<string, seq<Image>>)
    requires ArePopulated(apps, before, images, {})
    ensures apps == Populated(before, images)
  {
    hide LoadFrom, ListingOf;
    forall name | name in apps ensures apps[name] == Populated(before, images)[name] {
      assert IsPopulated(apps[name], before.apps[name], before.redis, images, {});
    }
  }

  lemma PopulatedOneMore(apps: map<string, App>, current: map<string, App>, before: Caches,
                         images: map<string, seq<Image>>, todo: set<string>, repo: string)
    requires repo in todo && ArePopulated(current, before, images, todo)
    requires AreLoaded(apps, current, {repo}, ListingOf(before.redis, images, repo))
    ensures ArePopulated(apps, before, images, todo - {repo})
  {
    forall name | name in before.apps
      ensures IsPopulated(apps[name], before.apps[name], before.redis, images, todo - {repo})
    {
      assert IsPopulated(current[name], before.apps[name], before.redis, images, todo);
      LoadKeepsRepo(before.apps[name], ListingOf(before.redis, images, before.apps[name].repo));
      hide LoadFrom, ListingOf;
    }
  }

  lemma CopyIsOld(redis: map<string, seq<RepoTag>>, before: map<string, seq<RepoTag>>,
                  images: map<string, seq<Image>>, repo: string)
    requires AreCopiesOf(redis, before, images) && (repo in redis ==> repo in before)
    ensures repo in redis ==> redis[repo] == before[repo]
    ensures ListingOf(redis, images, repo) == ListingOf(before, images, repo)
  {
    hide NewestFirst, AllTags;
  }

  lemma SharedIsCopy(redis: map<string, seq<RepoTag>>, current: map<string, seq<RepoTag>>,
                     before: map<string, seq<RepoTag>>, images: map<string, seq<Image>>, repo: string)
    requires AreCopiesOf(current, before, images) && redis == SharedAfter(current, images, repo)
    ensures AreCopiesOf(redis, before, images)
    ensures forall r | r in redis && r != repo :: r in current
  {
    hide NewestFirst, AllTags;
  }

  // The registry, by repository, and what it answers when it is asked for images.
  type World = map<string, Registry>

  ghost predicate AnswersTruly(images: map<string, seq<Image>>, world: World) {
    forall repo | repo in images :: repo in world && IsListedBy(images[repo], world[repo])
  }

  ghost predicate IsListedBy(images: seq<Image>, reg: Registry) {
    && (forall x | x in AllTags(images) :: x.tag in reg && reg[x.tag] == Some(x.pushedAt))
    && (forall tag | tag in reg && reg[tag].Some? :: RepoTag(tag, reg[tag].value) in AllTags(images))
  }

  ghost predicate AppsAreSound(apps: map<string, App>, world: World) {
    forall name | name in apps :: apps[name].repo in world && IsSound(apps[name], world[apps[name].repo])
  }

  ghost predicate CopiesAreSound(redis: map<string, seq<RepoTag>>, world: World) {
    forall repo | repo in redis ::
      repo in world && IsPartialListing(redis[repo], world[repo]) && redis[repo] != []
  }

  // An app of the configuration; a pattern that does not compile is None.
  datatype Entry = Entry(name: string, pattern: Option<string -> bool>, repo: string)

  // An earlier entry has the same name.
  predicate IsShadowed(entries: seq<Entry>, i: nat)
    requires i < |entries|
  {
    exists k :: 0 <= k < i && entries[k].name == entries[i].name
  }

  ghost predicate IsEmptyFor(a: App, e: Entry) {
    e.pattern.Some? && a == App(e.pattern.value, e.repo, [], [], 0)
  }

  // --- every run ---

  datatype System = System(caches: Caches, world: World)

  // Populate and refresh with answers of the registry; another replica shares what it fetched,
  // now or a while ago; or the registry gains a tag.
  datatype Step =
    | PopulateAll(answers: map<string, seq<Image>>, redis: map<string, seq<RepoTag>>)
    | RefreshApp(name: string, images: seq<Image>)
    | AddApp(name: string, pattern: string -> bool, repo: string)
    | ShareByOther(repo: string, listing: seq<RepoTag>)
    | PushTag(repo: string, tag: string, time: Option<nat>)
    | Restart

  ghost predicate Enabled(s: System, step: Step) {
    match step
    case PopulateAll(images, redis) => AnswersTruly(images, s.world) && AreCopiesOf(redis, s.caches.redis, images)
    case RefreshApp(name, images) =>
      && name in s.caches.apps && s.caches.apps[name].repo in s.world
      && IsListedBy(images, s.world[s.caches.apps[name].repo])
    case AddApp(name, _, repo) => name !in s.caches.apps && repo in s.world
    case ShareByOther(repo, listing) =>
      repo in s.world && IsPartialListing(listing, s.world[repo]) && listing != []
    case PushTag(repo, tag, _) => repo in s.world && tag !in s.world[repo]
    case Restart => true
  }

  function Apply(s: System, step: Step): System {
    match step
    case PopulateAll(images, redis) => s.(caches := Caches(Populated(s.caches, images), redis))
    case RefreshApp(name, images) =>
      if name !in s.caches.apps then s
      else
        var a := s.caches.apps[name];
        var listing := NewestFirst(AllTags(images));
        s.(caches := Caches(s.caches.apps[name := Refreshed(a, listing)], Share(s.caches.redis, a.repo, listing)))
    case AddApp(name, pattern, repo) =>
      s.(caches := s.caches.(apps := s.caches.apps[name := App(pattern, repo, [], [], 0)]))
    case ShareByOther(repo, listing) =>
      s.(caches := s.caches.(redis := s.caches.redis[repo := listing]))
    case PushTag(repo, tag, time) =>
      if repo !in s.world then s else s.(world := s.world[repo := s.world[repo][tag := time]])
    case Restart => s.(caches := s.caches.(apps := map[]))
  }

  ghost predicate Valid(s: System) {
    AppsAreSound(s.caches.apps, s.world) && CopiesAreSound(s.caches.redis, s.world)
  }

  lemma FetchedIsFull(images: seq<Image>, reg: Registry)
    requires IsListedBy(images, reg)
    ensures IsFullListing(NewestFirst(AllTags(images)), reg)
  {
    hide AllTags, NewestFirst;
  }

  lemma CopiesStaySound(redis: map<string, seq<RepoTag>>, before: map<string, seq<RepoTag>>,
                        images: map<string, seq<Image>>, world: World)
    requires CopiesAreSound(before, world) && AreCopiesOf(redis, before, images) && AnswersTruly(images, world)
    ensures CopiesAreSound(redis, world)
  {
    forall repo | repo in redis
      ensures repo in world && IsPartialListing(redis[repo], world[repo]) && redis[repo] != []
    {
      if repo !in before {
        FetchedIsFull(images[repo], world[repo]);
      }
    }
  }

  lemma PopulatedIsSound(c: Caches, images: map<string, seq<Image>>, world: World)
    requires AppsAreSound(c.apps, world) && CopiesAreSound(c.redis, world) && AnswersTruly(images, world)
    ensures AppsAreSound(Populated(c, images), world)
  {
    var apps := Populated(c, images);
    forall name | name in apps ensures apps[name].repo in world && IsSound(apps[name], world[apps[name].repo]) {
      var a := c.apps[name];
      match ListingOf(c.redis, images, a.repo) {
        case None =>
        case Some(l) =>
          if a.repo !in c.redis {
            FetchedIsFull(images[a.repo], world[a.repo]);
          }
          LoadIsSound(a, l, world[a.repo]);
      }
    }
  }

  lemma GrowthKeepsSound(a: App, reg: Registry, reg': Registry)
    requires IsSound(a, reg) && Grows(reg, reg')
    ensures IsSound(a, reg')
  {
  }

  lemma GrowthKeepsPartial(l: seq<RepoTag>, reg: Registry, reg': Registry)
    requires IsPartialListing(l, reg) && Grows(reg, reg')
    ensures IsPartialListing(l, reg')
  {
  }

  lemma PushKeepsValid(s: System, repo: string, tag: string, time: Option<nat>)
    requires Valid(s) && Enabled(s, PushTag(repo, tag, time))
    ensures Valid(Apply(s, PushTag(repo, tag, time)))
  {
    var s' := Apply(s, PushTag(repo, tag, time));
    forall r | r in s.world ensures r in s'.world && Grows(s.world[r], s'.world[r]) {}
    forall name | name in s.caches.apps ensures IsSound(s.caches.apps[name], s'.world[s.caches.apps[name].repo]) {
      var r := s.caches.apps[name].repo;
      GrowthKeepsSound(s.caches.apps[name], s.world[r], s'.world[r]);
    }
    forall r | r in s.caches.redis ensures IsPartialListing(s.caches.redis[r], s'.world[r]) {
      GrowthKeepsPartial(s.caches.redis[r], s.world[r], s'.world[r]);
    }
  }

  lemma RefreshKeepsValid(s: System, name: string, images: seq<Image>)
    requires Valid(s) && Enabled(s, RefreshApp(name, images))
    ensures Valid(Apply(s, RefreshApp(name, images)))
  {
    var a := s.caches.apps[name];
    var listing := NewestFirst(AllTags(images));
    FetchedIsFull(images, s.world[a.repo]);
    RefreshIsCurrent(a, listing, s.world[a.repo]);
    hide IsSound, IsPartialListing, AllTags, NewestFirst, Filter, Load, AppsAreSound, CopiesAreSound;
    AppReplaced(s.caches.apps, s.world, name, Refreshed(a, listing));
    CopyReplaced(s.caches.redis, s.world, a.repo, listing);
  }

  lemma AppReplaced(apps: map<string, App>, world: World, name: string, a: App)
    requires AppsAreSound(apps, world) && a.repo in world && IsSound(a, world[a.repo])
    ensures AppsAreSound(apps[name := a], world)
  {
    hide IsSound;
  }

  lemma CopyReplaced(redis: map<string, seq<RepoTag>>, world: World, repo: string, listing: seq<RepoTag>)
    requires CopiesAreSound(redis, world) && repo in world && IsPartialListing(listing, world[repo])
    ensures CopiesAreSound(Share(redis, repo, listing), world)
  {
    hide IsPartialListing;
  }

  lemma StepKeepsValid(s: System, step: Step)
    requires Valid(s) && Enabled(s, step)
    ensures Valid(Apply(s, step))
  {
    match step
    case PopulateAll(images, redis) =>
      PopulatedIsSound(s.caches, images, s.world);
      CopiesStaySound(redis, s.caches.redis, images, s.world);
    case RefreshApp(name, images) => RefreshKeepsValid(s, name, images);
    case AddApp(_, _, _) =>
    case ShareByOther(_, _) =>
    case PushTag(repo, tag, time) => PushKeepsValid(s, repo, tag, time);
    case Restart =>
  }

  ghost predicate IsRun(s: System, steps: seq<Step>)
    decreases |steps|
  {
    steps == [] || (Enabled(s, steps[0]) && IsRun(Apply(s, steps[0]), steps[1..]))
  }

  function Run(s: System, steps: seq<Step>): System
    decreases |steps|
  {
    if steps == [] then s else Run(Apply(s, steps[0]), steps[1..])
  }

  // Every cached list agrees with the registry, over any run from empty caches and with
  // whatever listings of the registry are shared, before it or by others during it; no
  // shared copy is ever empty.
  lemma {:induction false} CacheAgreesOnEveryRun(s: System, steps: seq<Step>)
    requires Valid(s) && IsRun(s, steps)
    ensures Valid(Run(s, steps))
    decreases |steps|
  {
    if steps != [] {
      StepKeepsValid(s, steps[0]);
      CacheAgreesOnEveryRun(Apply(s, steps[0]), steps[1..]);
    }
  }

  predicate IsRefreshing(step: Step) {
    step.RefreshApp? || step.PushTag? || step.ShareByOther?
  }

  // The newest push of an app never goes back while it is refreshed, whatever is pushed.
  lemma {:induction false} NewestNeverDrops(s: System, steps: seq<Step>, name: string)
    requires Valid(s) && IsRun(s, steps) && name in s.caches.apps
    requires forall i :: 0 <= i < |steps| ==> IsRefreshing(steps[i])
    ensures name in Run(s, steps).caches.apps
    ensures s.caches.apps[name].newestPush <= Run(s, steps).caches.apps[name].newestPush
    decreases |steps|
  {
    if steps != [] {
      var s' := Apply(s, steps[0]);
      StepKeepsValid(s, steps[0]);
      assert IsRefreshing(steps[0]);
      if steps[0].RefreshApp? {
        RefreshNeverDrops(s, steps[0].name, steps[0].images);
      }
      assert name in s'.caches.apps && s'.caches.apps[name].newestPush >= s.caches.apps[name].newestPush;
      hide Apply, Valid, Enabled;
      NewestNeverDrops(s', steps[1..], name);
    }
  }

  lemma RefreshNeverDrops(s: System, name: string, images: seq<Image>)
    requires Valid(s) && Enabled(s, RefreshApp(name, images))
    ensures Apply(s, RefreshApp(name, images)).caches.apps[name].newestPush >= s.caches.apps[name].newestPush
  {
    var a := s.caches.apps[name];
    FetchedIsFull(images, s.world[a.repo]);
    RefreshIsCurrent(a, NewestFirst(AllTags(images)), s.world[a.repo]);
  }

  // After populating, an app whose repository has a shared copy offers the matching tags of
  // that copy; without one, the matching tags of the images that were fetched.
  lemma PopulatedOffers(c: Caches, images: map<string, seq<Image>>, name: string, tag: string)
    requires name in c.apps
    ensures var a := c.apps[name]; var offered := tag in Populated(c, images)[name].tags;
      && (a.repo in c.redis ==>
            (offered <==> a.pattern(tag) && exists x :: x in c.redis[a.repo] && x.tag == tag))
      && (a.repo !in c.redis && a.repo in images ==>
            (offered <==> a.pattern(tag) && HasTaggedImage(images[a.repo], tag)))
      && (a.repo !in c.redis && a.repo !in images ==> Populated(c, images)[name] == a)
  {
    var a := c.apps[name];
    if a.repo in c.redis {
      LoadIsComplete(a, c.redis[a.repo], tag);
    } else if a.repo in images {
      LoadIsComplete(a, NewestFirst(AllTags(images[a.repo])), tag);
      TaggedImages(images[a.repo], tag);
    }
    hide Load, AllTags, NewestFirst, HasTaggedImage;
  }

  // An image with this tag, and with a time at which it was pushed.
  predicate HasTaggedImage(images: seq<Image>, tag: string) {
    exists i :: 0 <= i < |images| && images[i].pushedAt.Some? && tag in images[i].tags
  }

  lemma TaggedImages(images: seq<Image>, tag: string)
    ensures (exists x :: x in NewestFirst(AllTags(images)) && x.tag == tag) <==> HasTaggedImage(images, tag)
  {
    hide AllTags, NewestFirst;
    if x :| x in AllTags(images) && x.tag == tag {
      AllTagsOfImages(images, x);
    }
    if HasTaggedImage(images, tag) {
      var i :| 0 <= i < |images| && images[i].pushedAt.Some? && tag in images[i].tags;
      AllTagsOfImages(images, RepoTag(tag, images[i].pushedAt.value));
      assert RepoTag(tag, images[i].pushedAt.value) in NewestFirst(AllTags(images));
    }
  }

  // A refresh that replaces the list leaves exactly the matching tags of the registry that
  // have a push time; otherwise none of them is newer than the list.
  lemma RefreshIsComplete(a: App, listing: seq<RepoTag>, reg: Registry, tag: string)
    requires IsSound(a, reg) && IsFullListing(listing, reg)
    ensures var a' := Refreshed(a, listing);
      if HeadTime(Filter(listing, a.pattern)) > a.newestPush || a.tags == []
      then tag in a'.tags <==> tag in reg && reg[tag].Some? && a.pattern(tag)
      else a' == a && (tag in reg && reg[tag].Some? && a.pattern(tag) ==> reg[tag].value <= a.newestPush)
  {
    LoadIsComplete(a, listing, tag);
    RefreshIsCurrent(a, listing, reg);
    hide IsSound, IsNewestFirst, Load, Filter;
  }

  // A replica that loads the copy shared by a fetch has the list of the replica that fetched.
  lemma CopyGivesSameList(a: App, images: map<string, seq<Image>>, redis: map<string, seq<RepoTag>>)
    requires a.repo !in redis && a.repo in images && NewestFirst(AllTags(images[a.repo])) != []
    ensures LoadFrom(a, ListingOf(redis, images, a.repo))
         == LoadFrom(a, ListingOf(SharedAfter(redis, images, a.repo), map[], a.repo))
  {
  }

  class Cache {
    var apps: map<string, App>
    // Redis, by repository.
    var redis: map<string, seq<RepoTag>>

    function View(): Caches
      reads this
    {
      Caches(apps, redis)
    }

    constructor (redis: map<string, seq<RepoTag>>)
      ensures apps == map[] && this.redis == redis
    {
      this.apps, this.redis := map[], redis;
    }

    // Apps that are known already keep their lists; the first pattern that does not compile
    // ends it.
    method AddApps(entries: seq<Entry>) returns (ok: bool)
      modifies `apps
      ensures forall name | name in old(apps) :: name in apps && apps[name] == old(apps)[name]
      ensures ok <==> forall i | 0 <= i < |entries| && entries[i].name !in old(apps) ::
        entries[i].pattern.Some? || IsShadowed(entries, i)
      ensures ok ==> forall i :: 0 <= i < |entries| ==> entries[i].name in apps
      ensures forall name | name in apps && name !in old(apps) ::
        exists i :: 0 <= i < |entries| && entries[i].name == name && IsEmptyFor(apps[name], entries[i])
    {
      for i := 0 to |entries|
        invariant forall name | name in old(apps) :: name in apps && apps[name] == old(apps)[name]
        invariant forall k :: 0 <= k < i ==> entries[k].name in apps
        invariant forall k | 0 <= k < i && entries[k].name !in old(apps) ::
          entries[k].pattern.Some? || IsShadowed(entries, k)
        invariant forall name | name in apps && name !in old(apps) ::
          exists k :: 0 <= k < i && entries[k].name == name && IsEmptyFor(apps[name], entries[k])
      {
        var e := entries[i];
        if e.name !in apps {
          if e.pattern.None? {
            assert !IsShadowed(entries, i);
            return false;
          }
          apps := apps[e.name := App(e.pattern.value, e.repo, [], [], 0)];
          assert IsEmptyFor(apps[e.name], entries[i]);
        }
      }
      ok := true;
    }

    method LoadApp(name: string, listing: seq<RepoTag>)
      requires name in apps && IsNewestFirst(listing)
      modifies `apps
      ensures apps == old(apps)[name := Load(old(apps)[name], listing)]
    {
      hide Load, IsNewestFirst;
      var a := Loaded(apps[name], listing);
      apps := apps[name := a];
    }

    // The tags of a repository go to all apps of this repository.
    method LoadGroup(repo: string, listing: seq<RepoTag>)
      requires IsNewestFirst(listing)
      modifies `apps
      ensures AreLoaded(apps, old(apps), {repo}, Some(listing))
    {
      hide Load, LoadFrom, IsNewestFirst, IsGroupLoaded, AreLoaded;
      ghost var before := apps;
      var todo := apps.Keys;
      NothingLoaded(before, repo, listing);
      while todo != {}
        invariant todo <= apps.Keys && IsGroupLoaded(apps, before, repo, listing, todo)
        decreases |todo|
      {
        var name :| name in todo;
        OneMoreLoaded(apps, before, repo, listing, todo, name);
        todo := todo - {name};
        if apps[name].repo == repo {
          LoadApp(name, listing);
        }
      }
      AllLoaded(apps, before, repo, listing);
    }

    // The shared copy of a repository is preferred to fetching it.
    method PopulateRepo(repo: string, images: map<string, seq<Image>>)
      requires repo in redis ==> IsNewestFirst(redis[repo])
      modifies this
      ensures AreLoaded(apps, old(apps), {repo}, ListingOf(old(redis), images, repo))
      ensures redis == SharedAfter(old(redis), images, repo)
    {
      hide Load, LoadFrom, IsNewestFirst, AllTags, Share, AreLoaded;
      NoListingLoadsNothing(apps, repo);
      if repo in redis {
        LoadGroup(repo, redis[repo]);
      } else if repo in images {
        var all := ImagesToRepoTags(images[repo]);
        redis := Share(redis, repo, all);
        LoadGroup(repo, all);
      }
    }

    // images: the answers of the registry; a repository without one could not be fetched.
    method Populate(images: map<string, seq<Image>>)
      requires forall repo | repo in redis :: IsNewestFirst(redis[repo])
      modifies this
      ensures apps == Populated(old(View()), images)
      ensures AreCopiesOf(redis, old(redis), images)
    {
      assert AreCopiesOf(redis, redis, images);
      hide LoadFrom, ListingOf, IsNewestFirst, AllTags, NewestFirst, ArePopulated, AreLoaded, AreCopiesOf, SharedAfter;
      ghost var before := View();
      var todo := Repos(apps);
      NothingPopulated(before, images);
      while todo != {}
        invariant ArePopulated(apps, before, images, todo)
        invariant AreCopiesOf(redis, before.redis, images)
        invariant forall repo | repo in todo && repo in redis :: repo in before.redis
        decreases |todo|
      {
        var repo :| repo in todo;
        ghost var current := View();
        CopyIsOld(redis, before.redis, images, repo);
        PopulateRepo(repo, images);
        PopulatedOneMore(apps, current.apps, before, images, todo, repo);
        SharedIsCopy(redis, current.redis, before.redis, images, repo);
        todo := todo - {repo};
      }
      AllPopulated(apps, before, images);
    }

    // refresh; None when the registry does not answer.
    method Refresh(name: string, images: Option<seq<Image>>)
      requires name in apps
      modifies this
      ensures images.None? ==> View() == old(View())
      ensures images.Some? ==>
        var listing := NewestFirst(AllTags(images.value));
        && apps == old(apps)[name := Refreshed(old(apps)[name], listing)]
        && redis == Share(old(redis), old(apps)[name].repo, listing)
    {
      if images.None? { return; }
      hide AllTags, Filter, Share, NewestFirst, HeadTime, Load;
      var a := apps[name];
      var all := ImagesToRepoTags(images.value);
      var latest := Loaded(a, all);
      if latest.newestPush > a.newestPush || |a.tags| == 0 {
        apps := apps[name := latest];
      }
      redis := Share(redis, a.repo, all);
    }

    // ValidateTag. lookup: what the registry says of a tag that is not cached; it reports a
    // tag that it does not have as an error.
    method ValidateTag(name: string, tag: string, reg: Registry, reachable: bool) returns (valid: Result<bool, ()>)
      requires name in apps ==> IsSound(apps[name], reg)
      ensures name !in apps ==> valid.Err?
      ensures valid == Ok(true) ==> name in apps && apps[name].pattern(tag) && tag in reg
      ensures name in apps && apps[name].pattern(tag) && tag in reg && reachable ==> valid == Ok(true)
      ensures name in apps && !apps[name].pattern(tag) ==> valid == Ok(false)
      ensures name in apps && apps[name].pattern(tag) && tag !in reg ==> valid != Ok(true)
    {
      if name !in apps { return Err(()); }
      var a := apps[name];
      if !a.pattern(tag) { return Ok(false); }
      for i := 0 to |a.tags|
        invariant tag !in a.tags[..i]
      {
        if a.tags[i] == tag {
          assert a.tagsWithTime[i] in a.tagsWithTime;
          return Ok(true);
        }
      }
      if !reachable || tag !in reg { return Err(()); }
      return Ok(true);
    }
  }
}
