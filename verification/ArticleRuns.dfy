/** Articles under concurrent use: reading a row and writing it back are separate steps, and
    any number of editors and administrators are between the two at once. The last whole row
    written wins. */
module ArticleRuns {
  import opened Common
  import opened Articles
  import Slug

  /** An operation that has read its row and not yet written or deleted it. */
  datatype Frame = Changing(id: nat, who: Claims, op: Op, read: Article) | Deleting(id: nat, who: Claims, read: Article)

  datatype Cause = Created(input: Input) | Changed(op: Op, read: Article)

  /** One row stored: which, by whom, why, and what. */
  datatype Event = Event(id: nat, who: Claims, cause: Cause, stored: Article)

  /** `suffixes` remembers the suffix each id was created with; ids are never reused. */
  datatype World = World(articles: Table, frames: map<nat, Frame>, log: seq<Event>, suffixes: map<nat, string>)

  datatype Action =
    | Create(id: nat, who: Claims, input: Input, suffix: string)
    | Read(frame: nat, id: nat, who: Claims, op: Op)
    | ReadToDelete(frame: nat, id: nat, who: Claims)
    | Write(frame: nat, now: int)
    | Remove(frame: nat)
    | Purge(author: string)

  const EMPTY := World(map[], map[], [], map[])

  function CreateStep(desk: Desk, w: World, id: nat, who: Claims, input: Input, suffix: string): World {
    var c := Prepared(desk, input);
    if c.None? || id in w.suffixes then w
    else
      var a := DraftOf(desk, who, c.value, suffix);
      if SlugTaken(w.articles, id, a.slug) then w
      else World(w.articles[id := a], w.frames, w.log + [Event(id, who, Created(input), a)], w.suffixes[id := suffix])
  }

  function ReadStep(w: World, frame: nat, id: nat, who: Claims, op: Op): World {
    if Reachable(w.articles, who, id) then w.(frames := w.frames[frame := Changing(id, who, op, w.articles[id])]) else w
  }

  function ReadToDeleteStep(w: World, frame: nat, id: nat, who: Claims): World {
    if Reachable(w.articles, who, id) then w.(frames := w.frames[frame := Deleting(id, who, w.articles[id])]) else w
  }

  function WriteStep(desk: Desk, w: World, f: Frame, now: int): World
    requires f.Changing?
  {
    var decided := Decide(desk, f.op, f.who, f.read, now);
    if decided.Err? then w
    else
      var stored := Stored(w.articles, f.id, decided.value);
      if stored.Err? then w
      else w.(articles := stored.value, log := w.log + [Event(f.id, f.who, Changed(f.op, f.read), decided.value)])
  }

  /** A deletion decides on the row it read, too. */
  function RemoveStep(w: World, f: Frame): World {
    if MayDelete(f.who, f.read) then w.(articles := w.articles - {f.id}) else w
  }

  /** The account is gone, and with it its articles that are not published. */
  function Purged(articles: Table, author: string): Table {
    map j | j in articles && (articles[j].author != author || articles[j].status.Published?) :: articles[j]
  }

  function Step(desk: Desk, w: World, a: Action): World {
    match a
    case Create(id, who, input, suffix) => CreateStep(desk, w, id, who, input, suffix)
    case Read(frame, id, who, op) => ReadStep(w, frame, id, who, op)
    case ReadToDelete(frame, id, who) => ReadToDeleteStep(w, frame, id, who)
    case Write(frame, now) =>
      if frame in w.frames && w.frames[frame].Changing?
      then WriteStep(desk, w.(frames := w.frames - {frame}), w.frames[frame], now) else w
    case Remove(frame) =>
      if frame in w.frames && w.frames[frame].Deleting?
      then RemoveStep(w.(frames := w.frames - {frame}), w.frames[frame]) else w
    case Purge(author) => w.(articles := Purged(w.articles, author))
  }

  function Run(desk: Desk, w: World, actions: seq<Action>): World
    decreases |actions|
  {
    if actions == [] then w else Run(desk, Step(desk, w, actions[0]), actions[1..])
  }

  /** Editors and administrators, drawing suffixes from the alphabet. */
  predicate Proper(a: Action) {
    match a
    case Create(_, who, _, suffix) => !who.role.Member? && Slug.Drawn(suffix)
    case Read(_, _, who, _) => !who.role.Member?
    case ReadToDelete(_, _, who) => !who.role.Member?
    case _ => true
  }

  ghost predicate AllProper(actions: seq<Action>) {
    forall i :: 0 <= i < |actions| ==> Proper(actions[i])
  }

  // --------------------------------------------------- what a decision keeps

  /** A row that is well formed on its own. */
  ghost predicate Sound(desk: Desk, a: Article, suffix: string) {
    && Decent(desk, a.content)
    && Slug.SlugSuffix(a.slug) == suffix
    && (a.status.Published? ==> a.publishAt.Some? && a.firstPublishedAt.Some?)
  }

  lemma {:induction false} EditIsSound(desk: Desk, who: Claims, a: Article, input: Input, suffix: string)
    requires Sound(desk, a, suffix) && Slug.Drawn(suffix) && Edited(desk, who, a, input).Ok?
    ensures Sound(desk, Edited(desk, who, a, input).value, suffix)
  {
    PreparedIsDecent(desk, input);
    var e := Edited(desk, who, a, input).value;
    assert Prepared(desk, input) == Some(e.content) && e.status == a.status;
    Slug.SuffixRoundTrip(desk.classes, desk.fold(e.content.title), suffix);
  }

  lemma {:induction false} DecisionIsSound(desk: Desk, op: Op, who: Claims, a: Article, now: int, suffix: string)
    requires Sound(desk, a, suffix) && Slug.Drawn(suffix) && Decide(desk, op, who, a, now).Ok?
    ensures Sound(desk, Decide(desk, op, who, a, now).value, suffix)
  {
    match op {
      case Edit(input) => EditIsSound(desk, who, a, input, suffix);
      case Submit(publishAt) => SubmitWrites(desk, who, a, publishAt, now);
      case RequestChanges(note) => SendingBackWrites(desk, who, a, note, now);
      case Withdraw => WithdrawalWrites(a);
    }
  }

  /** Only an administrator's decision is a published article, and its content is what they
      read or supplied. */
  lemma {:induction false} PublishingIsAnAdministrators(desk: Desk, op: Op, who: Claims, a: Article, now: int)
    requires Decide(desk, op, who, a, now).Ok? && Decide(desk, op, who, a, now).value.status.Published?
    ensures who.role.Admin?
    ensures var stored := Decide(desk, op, who, a, now).value;
      if op.Edit? then Prepared(desk, op.input) == Some(stored.content) else stored.content == a.content
  {
  }

  // ---------------------------------------------------------------- invariants

  /** The row was in the table once. */
  ghost predicate WasStored(log: seq<Event>, id: nat, a: Article) {
    exists i :: 0 <= i < |log| && log[i].id == id && log[i].stored == a
  }

  /** A published row was stored by an administrator, with content they supplied or had read. */
  ghost predicate Vetted(desk: Desk, e: Event) {
    e.stored.status.Published? ==>
      && e.who.role.Admin? && e.cause.Changed?
      && if e.cause.op.Edit? then Prepared(desk, e.cause.op.input) == Some(e.stored.content)
          else e.stored.content == e.cause.read.content
  }

  /** The row a change was decided on had been stored before it. */
  ghost predicate ReadBefore(log: seq<Event>, i: nat)
    requires i < |log|
  {
    log[i].cause.Changed? ==> WasStored(log[..i], log[i].id, log[i].cause.read)
  }

  /** The last row stored under the id. */
  function LastStored(log: seq<Event>, id: nat): Option<Event> {
    if log == [] then None else if log[|log| - 1].id == id then Some(log[|log| - 1])
      else LastStored(log[..|log| - 1], id)
  }

  ghost predicate Rows(desk: Desk, w: World) {
    forall id :: id in w.articles ==>
      id in w.suffixes && Sound(desk, w.articles[id], w.suffixes[id]) && IsLast(w.log, id, w.articles[id])
  }

  /** The row is what was last stored under its id. */
  predicate IsLast(log: seq<Event>, id: nat, a: Article) {
    var last := LastStored(log, id);
    last.Some? && last.value.stored == a
  }

  ghost predicate Frames(desk: Desk, w: World) {
    forall f :: f in w.frames ==>
      && w.frames[f].id in w.suffixes && Sound(desk, w.frames[f].read, w.suffixes[w.frames[f].id])
      && WasStored(w.log, w.frames[f].id, w.frames[f].read)
  }

  ghost predicate Log(desk: Desk, log: seq<Event>) {
    forall i :: 0 <= i < |log| ==> Vetted(desk, log[i]) && ReadBefore(log, i)
  }

  ghost predicate Addresses(articles: Table) {
    forall i, j :: i in articles && j in articles && i != j ==> articles[i].slug != articles[j].slug
  }

  ghost predicate Inv(desk: Desk, w: World) {
    && Rows(desk, w) && Frames(desk, w) && Log(desk, w.log) && Addresses(w.articles)
    && SuffixesDrawn(w.suffixes)
  }

  predicate SuffixesDrawn(suffixes: map<nat, string>) {
    forall id :: id in suffixes ==> Slug.Drawn(suffixes[id])
  }

  lemma {:induction false} LastWasStored(log: seq<Event>, id: nat)
    requires LastStored(log, id).Some?
    ensures LastStored(log, id).value.id == id && LastStored(log, id).value in log
    ensures WasStored(log, id, LastStored(log, id).value.stored)
    decreases |log|
  {
    if log[|log| - 1].id != id {
      LastWasStored(log[..|log| - 1], id);
      var i :| 0 <= i < |log| - 1 && log[..|log| - 1][i].id == id
        && log[..|log| - 1][i].stored == LastStored(log, id).value.stored;
      assert log[i] == log[..|log| - 1][i];
    }
  }

  lemma {:induction false} StoredStays(log: seq<Event>, e: Event, id: nat, a: Article)
    requires WasStored(log, id, a)
    ensures WasStored(log + [e], id, a)
  {
    var i :| 0 <= i < |log| && log[i].id == id && log[i].stored == a;
    assert (log + [e])[i] == log[i];
  }

  lemma {:induction false} LogGrows(desk: Desk, log: seq<Event>, e: Event)
    requires Log(desk, log) && Vetted(desk, e) && (e.cause.Changed? ==> WasStored(log, e.id, e.cause.read))
    ensures Log(desk, log + [e])
  {
    var log' := log + [e];
    forall i | 0 <= i < |log'| ensures Vetted(desk, log'[i]) && ReadBefore(log', i) {
      if i < |log| {
        assert Vetted(desk, log[i]) && ReadBefore(log, i);
        assert log'[i] == log[i] && log'[..i] == log[..i];
      } else {
        assert log'[..i] == log;
      }
    }
  }

  function Put(w: World, e: Event): World {
    w.(articles := w.articles[e.id := e.stored], log := w.log + [e])
  }

  lemma {:induction false} LastOfLonger(log: seq<Event>, e: Event, id: nat)
    ensures LastStored(log + [e], id) == if e.id == id then Some(e) else LastStored(log, id)
  {
    assert (log + [e])[..|log|] == log;
  }

  lemma {:induction false} PutKeepsRows(desk: Desk, w: World, e: Event)
    requires Rows(desk, w) && e.id in w.suffixes && Sound(desk, e.stored, w.suffixes[e.id])
    ensures Rows(desk, Put(w, e))
  {
    var t := Put(w, e).articles;
    forall id | id in t
      ensures id in w.suffixes && Sound(desk, t[id], w.suffixes[id]) && IsLast(w.log + [e], id, t[id])
    {
      LastOfLonger(w.log, e, id);
      if id != e.id { assert id in w.articles && IsLast(w.log, id, t[id]); }
    }
  }

  lemma {:induction false} PutKeepsFrames(desk: Desk, w: World, e: Event)
    requires Frames(desk, w)
    ensures Frames(desk, Put(w, e))
  {
    forall f | f in w.frames ensures WasStored(Put(w, e).log, w.frames[f].id, w.frames[f].read) {
      StoredStays(w.log, e, w.frames[f].id, w.frames[f].read);
    }
  }

  lemma {:induction false} PutKeepsAddresses(articles: Table, id: nat, a: Article)
    requires Addresses(articles) && !SlugTaken(articles, id, a.slug)
    ensures Addresses(articles[id := a])
  {
    var t := articles[id := a];
    forall i, j | i in t && j in t && i != j ensures t[i].slug != t[j].slug {
      if i == id { assert j in articles; } else if j == id { assert i in articles; }
    }
  }

  /** A sound row stored under a known id at a free address. */
  lemma {:induction false} PutKeeps(desk: Desk, w: World, e: Event)
    requires Inv(desk, w) && e.id in w.suffixes && Sound(desk, e.stored, w.suffixes[e.id])
    requires !SlugTaken(w.articles, e.id, e.stored.slug)
    requires Vetted(desk, e) && (e.cause.Changed? ==> WasStored(w.log, e.id, e.cause.read))
    ensures Inv(desk, Put(w, e))
  {
    PutKeepsRows(desk, w, e);
    PutKeepsFrames(desk, w, e);
    LogGrows(desk, w.log, e);
    PutKeepsAddresses(w.articles, e.id, e.stored);
  }

  lemma {:induction false} CreateKeeps(desk: Desk, w: World, id: nat, who: Claims, input: Input, suffix: string)
    requires Inv(desk, w) && Slug.Drawn(suffix)
    ensures Inv(desk, CreateStep(desk, w, id, who, input, suffix))
  {
    var c := Prepared(desk, input);
    if c.Some? && id !in w.suffixes {
      var a := DraftOf(desk, who, c.value, suffix);
      if !SlugTaken(w.articles, id, a.slug) {
        NewIdKeeps(desk, w, id, suffix);
        DraftIsSound(desk, who, input, suffix);
        PutKeeps(desk, w.(suffixes := w.suffixes[id := suffix]), Event(id, who, Created(input), a));
      }
    }
  }

  lemma {:induction false} NewIdKeepsRows(desk: Desk, w: World, id: nat, suffix: string)
    requires Rows(desk, w) && id !in w.suffixes
    ensures Rows(desk, w.(suffixes := w.suffixes[id := suffix]))
  {
    var w' := w.(suffixes := w.suffixes[id := suffix]);
    forall j | j in w'.articles
      ensures j in w'.suffixes && Sound(desk, w'.articles[j], w'.suffixes[j]) && IsLast(w'.log, j, w'.articles[j])
    {
      assert j in w.suffixes && w'.suffixes[j] == w.suffixes[j];
    }
  }

  lemma {:induction false} NewIdKeepsFrames(desk: Desk, w: World, id: nat, suffix: string)
    requires Frames(desk, w) && id !in w.suffixes
    ensures Frames(desk, w.(suffixes := w.suffixes[id := suffix]))
  {
    var w' := w.(suffixes := w.suffixes[id := suffix]);
    forall f | f in w'.frames
      ensures w'.frames[f].id in w'.suffixes && Sound(desk, w'.frames[f].read, w'.suffixes[w'.frames[f].id])
      ensures WasStored(w'.log, w'.frames[f].id, w'.frames[f].read)
    {
      var j := w.frames[f].id;
      assert j in w.suffixes && w'.suffixes[j] == w.suffixes[j];
    }
  }

  lemma {:induction false} NewIdKeeps(desk: Desk, w: World, id: nat, suffix: string)
    requires Inv(desk, w) && Slug.Drawn(suffix) && id !in w.suffixes
    ensures Inv(desk, w.(suffixes := w.suffixes[id := suffix]))
  {
    NewIdKeepsRows(desk, w, id, suffix);
    NewIdKeepsFrames(desk, w, id, suffix);
  }

  lemma {:induction false} DraftIsSound(desk: Desk, who: Claims, input: Input, suffix: string)
    requires Slug.Drawn(suffix) && Prepared(desk, input).Some?
    ensures Sound(desk, DraftOf(desk, who, Prepared(desk, input).value, suffix), suffix)
  {
    PreparedIsDecent(desk, input);
    Slug.SuffixRoundTrip(desk.classes, desk.fold(Prepared(desk, input).value.title), suffix);
  }

  lemma {:induction false} WriteKeeps(desk: Desk, w: World, f: Frame, now: int)
    requires Inv(desk, w) && f.Changing? && f.id in w.suffixes && Sound(desk, f.read, w.suffixes[f.id])
      && WasStored(w.log, f.id, f.read)
    ensures Inv(desk, WriteStep(desk, w, f, now))
  {
    var decided := Decide(desk, f.op, f.who, f.read, now);
    if decided.Ok? {
      DecisionIsSound(desk, f.op, f.who, f.read, now, w.suffixes[f.id]);
      var e := Event(f.id, f.who, Changed(f.op, f.read), decided.value);
      if decided.value.status.Published? { PublishingIsAnAdministrators(desk, f.op, f.who, f.read, now); }
      if Stored(w.articles, f.id, decided.value).Ok? { PutKeeps(desk, w, e); }
    }
  }

  lemma {:induction false} ReadKeeps(desk: Desk, w: World, frame: nat, f: Frame)
    requires Inv(desk, w) && f.id in w.articles && f.read == w.articles[f.id]
    ensures Inv(desk, w.(frames := w.frames[frame := f]))
  {
    LastWasStored(w.log, f.id);
    var w' := w.(frames := w.frames[frame := f]);
    assert Frames(desk, w') by {
      forall g | g in w'.frames
        ensures w'.frames[g].id in w.suffixes && Sound(desk, w'.frames[g].read, w.suffixes[w'.frames[g].id])
        ensures WasStored(w.log, w'.frames[g].id, w'.frames[g].read)
      {
        if g != frame { assert g in w.frames; }
      }
    }
  }

  lemma {:induction false} RemoveKeeps(desk: Desk, w: World, articles: Table)
    requires Inv(desk, w) && forall id :: id in articles ==> id in w.articles && articles[id] == w.articles[id]
    ensures Inv(desk, w.(articles := articles))
  {
  }

  lemma {:induction false} LettingGoKeeps(desk: Desk, w: World, frame: nat)
    requires Inv(desk, w) && frame in w.frames
    ensures Inv(desk, w.(frames := w.frames - {frame}))
    ensures var f := w.frames[frame];
      f.id in w.suffixes && Sound(desk, f.read, w.suffixes[f.id]) && WasStored(w.log, f.id, f.read)
  {}

  lemma {:induction false} StepKeeps(desk: Desk, w: World, a: Action)
    requires Inv(desk, w) && Proper(a)
    ensures Inv(desk, Step(desk, w, a))
  {
    match a {
      case Create(id, who, input, suffix) => CreateKeeps(desk, w, id, who, input, suffix);
      case Read(frame, id, who, op) =>
        if Reachable(w.articles, who, id) { ReadKeeps(desk, w, frame, Changing(id, who, op, w.articles[id])); }
      case ReadToDelete(frame, id, who) =>
        if Reachable(w.articles, who, id) { ReadKeeps(desk, w, frame, Deleting(id, who, w.articles[id])); }
      case Write(frame, now) =>
        if frame in w.frames && w.frames[frame].Changing? {
          LettingGoKeeps(desk, w, frame);
          WriteKeeps(desk, w.(frames := w.frames - {frame}), w.frames[frame], now);
        }
      case Remove(frame) =>
        if frame in w.frames && w.frames[frame].Deleting? {
          LettingGoKeeps(desk, w, frame);
          RemoveKeeps(desk, w.(frames := w.frames - {frame}), Step(desk, w, a).articles);
        }
      case Purge(author) => RemoveKeeps(desk, w, Purged(w.articles, author));
    }
  }

  lemma {:induction false} RunKeeps(desk: Desk, w: World, actions: seq<Action>)
    requires Inv(desk, w) && AllProper(actions)
    ensures Inv(desk, Run(desk, w, actions))
    decreases |actions|
  {
    if actions != [] {
      StepKeeps(desk, w, actions[0]);
      RunKeeps(desk, Step(desk, w, actions[0]), actions[1..]);
    }
  }

  // ------------------------------------------------- what readers are shown

  /** In every interleaving, a published row was last stored by an administrator, and its
      content is what that administrator supplied, or what they had read from the table. */
  lemma {:induction false} PublishedIsVetted(desk: Desk, actions: seq<Action>, id: nat)
    requires AllProper(actions) && id in Run(desk, EMPTY, actions).articles
    requires Run(desk, EMPTY, actions).articles[id].status.Published?
    ensures var w := Run(desk, EMPTY, actions);
      var last := LastStored(w.log, id);
      && last.Some? && last.value.stored == w.articles[id] && last.value.who.role.Admin? && last.value.cause.Changed?
      && var Changed(op, read) := last.value.cause;
        if op.Edit? then Prepared(desk, op.input) == Some(w.articles[id].content)
        else read.content == w.articles[id].content && WasStored(w.log, id, read)
  {
    RunKeeps(desk, EMPTY, actions);
    var w := Run(desk, EMPTY, actions);
    LastWasStored(w.log, id);
    var e := LastStored(w.log, id).value;
    var i :| 0 <= i < |w.log| && w.log[i] == e;
    assert Vetted(desk, e) && ReadBefore(w.log, i);
    var j :| 0 <= j < i && w.log[..i][j].id == id && w.log[..i][j].stored == e.cause.read;
    assert w.log[j] == w.log[..i][j];
  }

  /** In every interleaving, all stored content is safe to show with its derived facts right,
      a published row has its publish time, and an address names one article. */
  lemma {:induction false} TableIsAlwaysSound(desk: Desk, actions: seq<Action>)
    requires AllProper(actions)
    ensures var t := Run(desk, EMPTY, actions).articles;
      && (forall id :: id in t ==> Decent(desk, t[id].content) && (t[id].status.Published? ==> t[id].publishAt.Some?))
      && (forall i, j :: i in t && j in t && t[i].slug == t[j].slug ==> i == j)
  {
    RunKeeps(desk, EMPTY, actions);
    var w := Run(desk, EMPTY, actions);
    forall id | id in w.articles
      ensures Decent(desk, w.articles[id].content) && (w.articles[id].status.Published?
        ==> w.articles[id].publishAt.Some?)
    {
      assert Sound(desk, w.articles[id], w.suffixes[id]);
    }
  }

  // ---------------------------------------------------- the permanent address

  lemma {:induction false} SuffixesStay(desk: Desk, w: World, actions: seq<Action>, id: nat)
    requires id in w.suffixes
    ensures id in Run(desk, w, actions).suffixes && Run(desk, w, actions).suffixes[id] == w.suffixes[id]
    decreases |actions|
  {
    if actions != [] { SuffixesStay(desk, Step(desk, w, actions[0]), actions[1..], id); }
  }

  /** In every interleaving, the random half of an address never changes. */
  lemma {:induction false} SuffixNeverChanges(desk: Desk, w: World, actions: seq<Action>, id: nat)
    requires Inv(desk, w) && AllProper(actions) && id in w.articles && id in Run(desk, w, actions).articles
    ensures Slug.SlugSuffix(Run(desk, w, actions).articles[id].slug) == Slug.SlugSuffix(w.articles[id].slug)
  {
    RunKeeps(desk, w, actions);
    SuffixesStay(desk, w, actions, id);
    assert Sound(desk, w.articles[id], w.suffixes[id]);
    assert Sound(desk, Run(desk, w, actions).articles[id], w.suffixes[id]);
  }

  /** A first publication happened between the read and the write. */
  predicate Overtaken(w: World, f: Frame) {
    f.id in w.articles && w.articles[f.id].firstPublishedAt.Some? && f.read.firstPublishedAt.None?
  }

  predicate WritesOvertaken(w: World, a: Action) {
    a.Write? && a.frame in w.frames && w.frames[a.frame].Changing? && Overtaken(w, w.frames[a.frame])
  }

  ghost predicate NeverOvertaken(desk: Desk, w: World, actions: seq<Action>)
    decreases |actions|
  {
    actions == [] || (!WritesOvertaken(w, actions[0]) && NeverOvertaken(desk, Step(desk, w, actions[0]), actions[1..]))
  }

  predicate SameAddress(a: Article, b: Article) {
    a.firstPublishedAt == b.firstPublishedAt && a.slug == b.slug
  }

  /** Ids in use are remembered, so none is used twice. */
  ghost predicate Known(w: World) {
    (forall id :: id in w.articles ==> id in w.suffixes) && (forall f :: f in w.frames ==> w.frames[f].id in w.suffixes)
  }

  /** Whoever has seen the article published has seen its address. */
  ghost predicate Settled(w: World) {
    && Known(w)
    && (forall f :: f in w.frames && w.frames[f].id in w.articles && w.frames[f].read.firstPublishedAt.Some?
         ==> SameAddress(w.articles[w.frames[f].id], w.frames[f].read))
  }

  /** No published address changed between two tables. */
  ghost predicate AddressesKept(before: Table, after: Table) {
    forall id :: id in before && id in after && before[id].firstPublishedAt.Some? ==> SameAddress(after[id], before[id])
  }

  lemma {:induction false} DecisionKeepsAddress(desk: Desk, op: Op, who: Claims, a: Article, now: int)
    requires a.firstPublishedAt.Some? && Decide(desk, op, who, a, now).Ok?
    ensures SameAddress(Decide(desk, op, who, a, now).value, a)
  {
  }

  /** An overtaken publication that happens to choose the instant and the address that the
      article was first published with. */
  predicate Coincides(w: World, f: Frame, now: int)
    requires f.Changing?
  {
    && f.op.Submit? && f.who.role.Admin? && f.id in w.articles && f.read.slug == w.articles[f.id].slug
    && var asked := Requested(f.op.publishAt, now);
      asked.Ok? && w.articles[f.id].firstPublishedAt == Some(PublicationAt(f.read, asked.value, now))
  }

  /** A write keeps the address and the first publication of a published article exactly when
      its row was read after that publication, or it publishes at the same instant under the
      same address. */
  lemma {:induction false} WriteKeepsAddressIff(desk: Desk, w: World, frame: nat, now: int)
    requires Settled(w) && frame in w.frames && w.frames[frame].Changing? && w.frames[frame].id in w.articles
    requires var f := w.frames[frame];
      && w.articles[f.id].firstPublishedAt.Some?
      && Decide(desk, f.op, f.who, f.read, now).Ok?
      && Stored(w.articles, f.id, Decide(desk, f.op, f.who, f.read, now).value).Ok?
    ensures var f := w.frames[frame];
      var after := Step(desk, w, Write(frame, now)).articles;
      SameAddress(after[f.id], w.articles[f.id]) <==> !Overtaken(w, f) || Coincides(w, f, now)
  {
    var f := w.frames[frame];
    var written := Decide(desk, f.op, f.who, f.read, now).value;
    assert Step(desk, w, Write(frame, now)).articles[f.id] == written;
    if f.read.firstPublishedAt.Some? {
      DecisionKeepsAddress(desk, f.op, f.who, f.read, now);
    } else {
      OvertakenWrites(desk, f, now);
    }
  }

  /** What a write from before the first publication stores as its date and address. */
  lemma {:induction false} OvertakenWrites(desk: Desk, f: Frame, now: int)
    requires f.Changing? && f.read.firstPublishedAt.None? && Decide(desk, f.op, f.who, f.read, now).Ok?
    ensures var written := Decide(desk, f.op, f.who, f.read, now).value;
      if f.op.Submit? && f.who.role.Admin?
      then written.slug == f.read.slug && Requested(f.op.publishAt, now).Ok?
        && written.firstPublishedAt == Some(PublicationAt(f.read, Requested(f.op.publishAt, now).value, now))
      else written.firstPublishedAt.None?
  {
  }

  lemma {:induction false} WriteSettles(desk: Desk, w: World, frame: nat, now: int)
    requires Settled(w) && frame in w.frames && w.frames[frame].Changing? && !Overtaken(w, w.frames[frame])
    ensures var w' := Step(desk, w, Write(frame, now));
      Settled(w') && AddressesKept(w.articles, w'.articles)
  {
    var f := w.frames[frame];
    var decided := Decide(desk, f.op, f.who, f.read, now);
    if decided.Ok? && f.id in w.articles {
      if f.read.firstPublishedAt.Some? { DecisionKeepsAddress(desk, f.op, f.who, f.read, now); }
      var rest := w.(frames := w.frames - {frame});
      PutSettles(rest, f.id, decided.value, w.log + [Event(f.id, f.who, Changed(f.op, f.read), decided.value)]);
    }
  }

  /** Storing a row whose address agrees with that of the row it replaces, if that was
      published. */
  lemma {:induction false} PutSettles(w: World, id: nat, a: Article, log: seq<Event>)
    requires Settled(w) && id in w.articles
    requires w.articles[id].firstPublishedAt.Some? ==> SameAddress(a, w.articles[id])
    ensures var w' := w.(articles := w.articles[id := a], log := log);
      Settled(w') && AddressesKept(w.articles, w'.articles)
  {}

  /** A row under an id that nothing knows yet. */
  lemma {:induction false} NewRowSettles(w: World, id: nat, a: Article, e: Event, suffix: string)
    requires Settled(w) && id !in w.suffixes
    ensures var w' := World(w.articles[id := a], w.frames, w.log + [e], w.suffixes[id := suffix]);
      Settled(w') && AddressesKept(w.articles, w'.articles)
  {
    var w' := World(w.articles[id := a], w.frames, w.log + [e], w.suffixes[id := suffix]);
    assert Known(w');
    assert forall f :: f in w.frames ==> w.frames[f].id != id;
  }

  lemma {:induction false} CreateSettles(desk: Desk, w: World, id: nat, who: Claims, input: Input, suffix: string)
    requires Settled(w)
    ensures var w' := CreateStep(desk, w, id, who, input, suffix);
      Settled(w') && AddressesKept(w.articles, w'.articles)
  {
    var c := Prepared(desk, input);
    if c.Some? && id !in w.suffixes {
      var a := DraftOf(desk, who, c.value, suffix);
      NewRowSettles(w, id, a, Event(id, who, Created(input), a), suffix);
    }
  }

  lemma {:induction false} StepSettles(desk: Desk, w: World, a: Action)
    requires Settled(w) && !WritesOvertaken(w, a)
    ensures Settled(Step(desk, w, a)) && AddressesKept(w.articles, Step(desk, w, a).articles)
  {
    match a {
      case Create(id, who, input, suffix) => CreateSettles(desk, w, id, who, input, suffix);
      case Write(frame, now) =>
        if frame in w.frames && w.frames[frame].Changing? { WriteSettles(desk, w, frame, now); }
      case _ =>
    }
  }

  lemma {:induction false} GoneForGood(desk: Desk, w: World, actions: seq<Action>, id: nat)
    requires id in w.suffixes && id !in w.articles
    ensures id !in Run(desk, w, actions).articles
    decreases |actions|
  {
    if actions != [] { GoneForGood(desk, Step(desk, w, actions[0]), actions[1..], id); }
  }

  /** Once first published, neither the address nor the date of first publication changes
      again, as long as no first publication overtakes a write. */
  lemma {:induction false} AddressIsPermanent(desk: Desk, w: World, actions: seq<Action>, id: nat)
    requires Settled(w) && NeverOvertaken(desk, w, actions)
    requires id in w.articles && w.articles[id].firstPublishedAt.Some? && id in Run(desk, w, actions).articles
    ensures SameAddress(Run(desk, w, actions).articles[id], w.articles[id])
    decreases |actions|
  {
    if actions != [] {
      var w' := Step(desk, w, actions[0]);
      StepSettles(desk, w, actions[0]);
      StepKnows(desk, w, actions[0]);
      if id !in w'.articles { GoneForGood(desk, w', actions[1..], id); }
      AddressIsPermanent(desk, w', actions[1..], id);
    }
  }

  lemma {:induction false} StepKnows(desk: Desk, w: World, a: Action)
    ensures w.suffixes.Keys <= Step(desk, w, a).suffixes.Keys
  {
  }

  /** Any run in which nothing was overtaken leads to a world as settled as the first. */
  lemma {:induction false} RunSettles(desk: Desk, w: World, actions: seq<Action>)
    requires Settled(w) && NeverOvertaken(desk, w, actions)
    ensures Settled(Run(desk, w, actions))
    decreases |actions|
  {
    if actions != [] {
      StepSettles(desk, w, actions[0]);
      RunSettles(desk, Step(desk, w, actions[0]), actions[1..]);
    }
  }

  // --------------------------------------------------------- one at a time

  /** An operation with nothing in between. */
  datatype Call =
    | New(id: nat, who: Claims, input: Input, suffix: string)
    | Change(id: nat, who: Claims, op: Op, now: int)
    | Drop(id: nat, who: Claims)
    | Forget(author: string)

  function Actions(c: Call): seq<Action> {
    match c
    case New(id, who, input, suffix) => [Create(id, who, input, suffix)]
    case Change(id, who, op, now) => [Read(0, id, who, op), Write(0, now)]
    case Drop(id, who) => [ReadToDelete(0, id, who), Remove(0)]
    case Forget(author) => [Purge(author)]
  }

  function Sequential(calls: seq<Call>): seq<Action> {
    if calls == [] then [] else Actions(calls[0]) + Sequential(calls[1..])
  }

  lemma {:induction false} RunOfOne(desk: Desk, w: World, a: Action)
    ensures Run(desk, w, [a]) == Step(desk, w, a)
  {
    assert [a][1..] == [];
  }

  lemma {:induction false} RunOfTwo(desk: Desk, w: World, a: Action, b: Action)
    ensures Run(desk, w, [a, b]) == Step(desk, Step(desk, w, a), b)
    ensures NeverOvertaken(desk, w, [a, b]) <==> !WritesOvertaken(w, a) && !WritesOvertaken(Step(desk, w, a), b)
  {
    assert [a, b][1..] == [b] && [b][1..] == [];
    assert Run(desk, w, [a, b]) == Run(desk, Step(desk, w, a), [b]);
    assert NeverOvertaken(desk, Step(desk, w, a), [b]) <==> !WritesOvertaken(Step(desk, w, a), b);
  }

  lemma {:induction false} RunAppends(desk: Desk, w: World, xs: seq<Action>, ys: seq<Action>)
    ensures Run(desk, w, xs + ys) == Run(desk, Run(desk, w, xs), ys)
    ensures NeverOvertaken(desk, w, xs + ys)
      <==> NeverOvertaken(desk, w, xs) && NeverOvertaken(desk, Run(desk, w, xs), ys)
    decreases |xs|
  {
    if xs == [] {
      assert xs + ys == ys;
    } else {
      assert (xs + ys)[1..] == xs[1..] + ys;
      RunAppends(desk, Step(desk, w, xs[0]), xs[1..], ys);
    }
  }

  /** A call alone is a read and a write in a row. */
  lemma {:induction false} LoneIsARun(desk: Desk, w: World, f: nat, id: nat, who: Claims, op: Op, now: int)
    requires f !in w.frames
    ensures var w' := Run(desk, w, [Read(f, id, who, op), Write(f, now)]);
      var lone := Lone(desk, w.articles, id, op, who, now);
      w'.frames == w.frames && w'.articles == if lone.Ok? then lone.value.1 else w.articles
  {
    RunOfTwo(desk, w, Read(f, id, who, op), Write(f, now));
    if Reachable(w.articles, who, id) {
      HeldThenWritten(desk, w, f, Changing(id, who, op, w.articles[id]), now);
      WrittenAsLone(desk, w, id, who, op, now);
    }
  }

  lemma {:induction false} HeldThenWritten(desk: Desk, w: World, f: nat, held: Frame, now: int)
    requires f !in w.frames && held.Changing?
    ensures Step(desk, w.(frames := w.frames[f := held]), Write(f, now)) == WriteStep(desk, w, held, now)
  {
    assert w.frames[f := held] - {f} == w.frames;
  }

  lemma {:induction false} WrittenAsLone(desk: Desk, w: World, id: nat, who: Claims, op: Op, now: int)
    requires Reachable(w.articles, who, id)
    ensures var w' := WriteStep(desk, w, Changing(id, who, op, w.articles[id]), now);
      var lone := Lone(desk, w.articles, id, op, who, now);
      w'.frames == w.frames && w'.articles == if lone.Ok? then lone.value.1 else w.articles
  {}

  /** A deletion alone removes the one row, exactly when its writer may. */
  lemma {:induction false} LoneDeletionIsARun(desk: Desk, w: World, f: nat, id: nat, who: Claims)
    requires f !in w.frames
    ensures var w' := Run(desk, w, [ReadToDelete(f, id, who), Remove(f)]);
      && w'.frames == w.frames && w'.log == w.log
      && w'.articles == if id in w.articles && (who.role.Admin?
          || (w.articles[id].author == who.user && !w.articles[id].status.Published?))
        then w.articles - {id} else w.articles
  {
    RunOfTwo(desk, w, ReadToDelete(f, id, who), Remove(f));
    if Reachable(w.articles, who, id) {
      assert w.frames[f := Deleting(id, who, w.articles[id])] - {f} == w.frames;
    }
  }

  /** A creation stores a draft of the writer's with the content the input stands for. */
  lemma {:induction false} CreationStores(desk: Desk, w: World, id: nat, who: Claims, input: Input, suffix: string)
    requires id !in w.articles && id !in w.suffixes
    ensures var w' := Step(desk, w, Create(id, who, input, suffix));
      if id in w'.articles then
        var a := w'.articles[id];
        && w'.articles == w.articles[id := a] && StandsFor(desk, input, a.content)
        && a == Article(AddressOf(desk, a.content.title, suffix), who.user, a.content, Draft, None, None, None, None,
                        None, "")
      else w' == w
  {
    PreparedStandsFor(desk, input);
    if Prepared(desk, input).Some? { AddressesAgree(desk, Prepared(desk, input).value.title, suffix); }
  }

  /** An account that goes takes its unpublished articles along. */
  lemma {:induction false} PurgeLeaves(desk: Desk, w: World, author: string, id: nat)
    ensures var w' := Step(desk, w, Purge(author));
      && (id in w'.articles <==>
            id in w.articles && (w.articles[id].author != author || w.articles[id].status == Published))
      && (id in w'.articles ==> w'.articles[id] == w.articles[id])
  {}

  lemma {:induction false} CallIsNeverOvertaken(desk: Desk, w: World, c: Call)
    requires w.frames == map[]
    ensures NeverOvertaken(desk, w, Actions(c)) && Run(desk, w, Actions(c)).frames == map[]
  {
    match c {
      case New(id, who, input, suffix) => RunOfOne(desk, w, Create(id, who, input, suffix)); assert Actions(c)[1..]
        == [];
      case Change(id, who, op, now) => RunOfTwo(desk, w, Read(0, id, who, op), Write(0, now));
      case Drop(id, who) => RunOfTwo(desk, w, ReadToDelete(0, id, who), Remove(0));
      case Forget(author) => RunOfOne(desk, w, Purge(author)); assert Actions(c)[1..] == [];
    }
  }

  lemma {:induction false} SequentialIsNeverOvertaken(desk: Desk, w: World, calls: seq<Call>)
    requires w.frames == map[]
    ensures NeverOvertaken(desk, w, Sequential(calls)) && Run(desk, w, Sequential(calls)).frames == map[]
    decreases |calls|
  {
    if calls != [] {
      CallIsNeverOvertaken(desk, w, calls[0]);
      RunAppends(desk, w, Actions(calls[0]), Sequential(calls[1..]));
      SequentialIsNeverOvertaken(desk, Run(desk, w, Actions(calls[0])), calls[1..]);
    }
  }

  /** One call at a time, the address of a published article is permanent outright. */
  lemma {:induction false} SequentialAddressIsPermanent(desk: Desk, before: seq<Call>, after: seq<Call>, id: nat)
    requires var w := Run(desk, EMPTY, Sequential(before));
      && id in w.articles && w.articles[id].firstPublishedAt.Some?
      && id in Run(desk, w, Sequential(after)).articles
    ensures var w := Run(desk, EMPTY, Sequential(before));
      SameAddress(Run(desk, w, Sequential(after)).articles[id], w.articles[id])
  {
    var w := Run(desk, EMPTY, Sequential(before));
    SequentialIsNeverOvertaken(desk, EMPTY, before);
    SequentialIsNeverOvertaken(desk, w, after);
    RunSettles(desk, EMPTY, Sequential(before));
    AddressIsPermanent(desk, w, Sequential(after), id);
  }

  // ------------------------------------------------ an overtaken write, in full

  function Opening(editor: Claims, admin: Claims, input: Input, edit: Input, suffix: string): seq<Action> {
    [Create(0, editor, input, suffix), Read(0, 0, editor, Edit(edit)), Read(1, 0, admin, Submit(None))]
  }

  lemma {:induction false} OpeningReads(desk: Desk, editor: Claims, admin: Claims, input: Input, edit: Input,
        suffix: string)
    requires editor.role.Editor? && admin.role.Admin? && Prepared(desk, input).Some?
    ensures var a := DraftOf(desk, editor, Prepared(desk, input).value, suffix);
      var w := Run(desk, EMPTY, Opening(editor, admin, input, edit, suffix));
      w.articles == map[0 := a]
        && w.frames == map[0 := Changing(0, editor, Edit(edit), a), 1 := Changing(0, admin, Submit(None), a)]
  {
    var a := DraftOf(desk, editor, Prepared(desk, input).value, suffix);
    var w1 := Step(desk, EMPTY, Create(0, editor, input, suffix));
    assert w1.articles == map[0 := a];
    RunAppends(desk, EMPTY, [Create(0, editor, input, suffix)],
        [Read(0, 0, editor, Edit(edit)), Read(1, 0, admin, Submit(None))]);
    RunOfOne(desk, EMPTY, Create(0, editor, input, suffix));
    RunOfTwo(desk, w1, Read(0, 0, editor, Edit(edit)), Read(1, 0, admin, Submit(None)));
    assert Opening(editor, admin, input, edit, suffix)
      == [Create(0, editor, input, suffix)] + [Read(0, 0, editor, Edit(edit)), Read(1, 0, admin, Submit(None))];
  }

  /** With one row in the table, a write replaces it. */
  lemma {:induction false} OnlyRow(desk: Desk, w: World, frame: nat, now: int, p: Article, e: Article)
    requires w.articles == map[0 := p] && frame in w.frames && w.frames[frame].id == 0
    requires var f := w.frames[frame]; f.Changing? && Decide(desk, f.op, f.who, f.read, now) == Ok(e)
    ensures Step(desk, w, Write(frame, now)).articles == map[0 := e]
    ensures Step(desk, w, Write(frame, now)).frames == w.frames - {frame}
  {
    assert !SlugTaken(w.articles, 0, e.slug);
    assert w.articles[0 := e] == map[0 := e];
  }

  /** The two decisions, from the same draft. */
  lemma {:induction false} BothDecide(desk: Desk, editor: Claims, admin: Claims, edit: Input, a: Article, now: int)
    requires editor.role.Editor? && admin.role.Admin? && a.status.Draft? && a.firstPublishedAt.None?
    requires Ready(desk, a.content) && Prepared(desk, edit).Some?
    ensures Decide(desk, Submit(None), admin, a, now) == PublishedBy(admin, a, None, now)
    ensures PublishedBy(admin, a, None, now).Ok?
    ensures var p := PublishedBy(admin, a, None, now).value; p.status.Published? && p.firstPublishedAt == Some(now)
    ensures Decide(desk, Edit(edit), editor, a, now).Ok?
    ensures var e := Decide(desk, Edit(edit), editor, a, now).value;
      e.status.Draft? && e.firstPublishedAt.None? && e.content == Prepared(desk, edit).value
  {
  }

  /** An editor's edit, read before an administrator publishes and written after, takes the
      article down and forgets it was ever published. */
  lemma {:induction false} EditUnpublishes(desk: Desk, w: World, editor: Claims, admin: Claims, edit: Input,
        a: Article, now: int)
    requires editor.role.Editor? && admin.role.Admin? && a.status.Draft? && a.firstPublishedAt.None?
    requires Ready(desk, a.content) && Prepared(desk, edit).Some?
    requires w.articles == map[0 := a]
      && w.frames == map[0 := Changing(0, editor, Edit(edit), a), 1 := Changing(0, admin, Submit(None), a)]
    ensures var published := Step(desk, w, Write(1, now));
      && 0 in published.articles && published.articles[0].status.Published?
          && published.articles[0].firstPublishedAt == Some(now)
      && WritesOvertaken(published, Write(0, now))
    ensures var after := Step(desk, Step(desk, w, Write(1, now)), Write(0, now)).articles;
      && 0 in after && after[0].status.Draft? && after[0].firstPublishedAt == None
      && after[0].content == Prepared(desk, edit).value
  {
    BothDecide(desk, editor, admin, edit, a, now);
    var p := PublishedBy(admin, a, None, now).value;
    var e := Decide(desk, Edit(edit), editor, a, now).value;
    OnlyRow(desk, w, 1, now, a, p);
    OnlyRow(desk, Step(desk, w, Write(1, now)), 0, now, p, e);
  }

  /** It happens from an empty desk with any draft that is ready: the condition is needed. */
  lemma {:induction false} OvertakenEditUnpublishes(desk: Desk, editor: Claims, admin: Claims, input: Input,
        edit: Input, suffix: string, now: int)
    requires editor.role.Editor? && admin.role.Admin?
    requires Prepared(desk, input).Some? && Ready(desk, Prepared(desk, input).value) && Prepared(desk, edit).Some?
    ensures var published := Step(desk, Run(desk, EMPTY, Opening(editor, admin, input, edit, suffix)), Write(1, now));
      && 0 in published.articles && published.articles[0].status.Published?
          && published.articles[0].firstPublishedAt == Some(now)
      && WritesOvertaken(published, Write(0, now))
      && var after := Step(desk, published, Write(0, now)).articles;
        0 in after && after[0].status.Draft? && after[0].firstPublishedAt == None
          && after[0].content == Prepared(desk, edit).value
  {
    OpeningReads(desk, editor, admin, input, edit, suffix);
    EditUnpublishes(desk, Run(desk, EMPTY, Opening(editor, admin, input, edit, suffix)), editor, admin, edit,
                    DraftOf(desk, editor, Prepared(desk, input).value, suffix), now);
  }
}
