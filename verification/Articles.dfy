/** The editorial desk: who may do what to an article, in which state, and what is stored.

    Every operation reads a row, decides on that copy, and writes the whole row back. The
    functions say what is decided from a copy; the class does it in one go. */
module Articles {
  import opened Common
  import opened ArticleBody
  import Slug

  const SECOND := 1_000_000_000
  const MAX_SCHEDULE_AHEAD := 366 * 24 * 3600 * SECOND
  const MAX_TITLE := 160
  const MAX_SUBTITLE := 300
  const MAX_CAPTION := 300
  const MAX_BODY_BYTES := 524288
  const MAX_TAGS := 8
  const MAX_TAG := 32
  const MAX_NOTE := 2000
  const MAX_ARTICLES_PER_AUTHOR := 1000
  const ATTEMPTS := 3
  const LONGEST_ADDRESS := 200
  const EMPTY_DOC := Node("doc", map[], [], [], "")

  datatype Status = Draft | InReview | ChangesRequested | Published

  datatype Content = Content(
    title: string, subtitle: string, cover: string, caption: string, body: Node, excerpt: string, minutes: nat,
        tags: seq<string>)

  datatype Article = Article(
    slug: string, author: string, content: Content, status: Status, publishAt: Option<int>,
        firstPublishedAt: Option<int>,
    submittedAt: Option<int>, reviewerId: Option<string>, reviewedAt: Option<int>, note: string)

  datatype Body = Blank | Raw(bytes: nat, parsed: Option<Node>)

  datatype Input = Input(title: string, subtitle: string, cover: string, caption: string, body: Body, tags: seq<string>)

  datatype Role = Admin | Editor | Member

  datatype Claims = Claims(user: string, role: Role)

  datatype Error = Unauthorized | Forbidden | NotFound | Conflict | Invalid

  /** Character classes and case folding: `fold` prepares a title for its address. */
  datatype Desk = Desk(rules: Rules, classes: Slug.Classes, fold: string -> string, lower: string -> string)

  type Table = map<nat, Article>

  // ----------------------------------------------------------------- content

  function NormalTag(desk: Desk, raw: string): string {
    var t := TrimSpace(desk.rules, raw);
    desk.lower(Joined(Fields(desk.rules.space, if t != "" && t[0] == '#' then t[1..] else t), " "))
  }

  /** The topics of an article: each once, in the order first named. */
  function TagList(desk: Desk, raw: seq<string>): (tags: seq<string>)
    ensures forall i, j :: 0 <= i < j < |tags| ==> tags[i] != tags[j]
    ensures forall i :: 0 <= i < |tags| ==> tags[i] != ""
  {
    if raw == [] then [] else AddTag(TagList(desk, raw[..|raw| - 1]), NormalTag(desk, raw[|raw| - 1]))
  }

  function AddTag(tags: seq<string>, t: string): seq<string> {
    if t == "" || t in tags then tags else tags + [t]
  }

  lemma TagStep(desk: Desk, raw: seq<string>, i: nat)
    requires i < |raw|
    ensures TagList(desk, raw[..i + 1]) == AddTag(TagList(desk, raw[..i]), NormalTag(desk, raw[i]))
  {
    assert raw[..i + 1][..i] == raw[..i];
  }

  /** Exactly the non-empty topics named. */
  lemma {:induction false} TagsAreTheTopics(desk: Desk, raw: seq<string>, t: string)
    ensures t in TagList(desk, raw) <==> t != "" && exists i :: 0 <= i < |raw| && NormalTag(desk, raw[i]) == t
    decreases |raw|
  {
    if raw != [] {
      var front := raw[..|raw| - 1];
      TagsAreTheTopics(desk, front, t);
      if t in TagList(desk, front) {
        var i :| 0 <= i < |front| && NormalTag(desk, front[i]) == t;
        assert raw[i] == front[i];
      } else if i :| 0 <= i < |raw| && NormalTag(desk, raw[i]) == t {
        if i < |front| { assert front[i] == raw[i]; }
      }
    }
  }

  lemma {:induction false} TagsGrow(desk: Desk, raw: seq<string>, i: nat)
    requires i <= |raw|
    ensures TagList(desk, raw[..i]) <= TagList(desk, raw)
    decreases |raw|
  {
    if i == |raw| {
      assert raw[..i] == raw;
    } else {
      TagsGrow(desk, raw[..|raw| - 1], i);
      assert raw[..|raw| - 1][..i] == raw[..i];
    }
  }

  predicate TagsOk(tags: seq<string>) {
    |tags| <= MAX_TAGS && forall i :: 0 <= i < |tags| ==> |tags[i]| <= MAX_TAG
  }

  /** The reading time of a body: whole minutes, rounded up, at least one. */
  predicate ReadingTime(words: nat, minutes: nat) {
    && minutes >= 1 && words <= minutes * WORDS_PER_MINUTE
    && (minutes == 1 || (minutes - 1) * WORDS_PER_MINUTE < words)
  }

  /** What may be stored: within bounds, safe to show, and with its derived facts right. */
  ghost predicate Decent(desk: Desk, c: Content) {
    && |c.title| <= MAX_TITLE && |c.subtitle| <= MAX_SUBTITLE && |c.caption| <= MAX_CAPTION
    && (c.cover == "" || desk.rules.safeImage(c.cover))
    && Acceptable(desk.rules, c.body)
    && c.excerpt == ExcerptOf(desk.rules, FirstFour(Paragraphs(desk.rules, c.body)))
    && ReadingTime(WordCount(desk.rules, c.body), c.minutes)
    && TagsOk(c.tags)
    && forall i, j :: 0 <= i < j < |c.tags| ==> c.tags[i] != c.tags[j]
  }

  function MinutesFor(words: nat): (m: nat)
    ensures ReadingTime(words, m)
  {
    var m := (words + WORDS_PER_MINUTE - 1) / WORDS_PER_MINUTE;
    if m < 1 then 1 else m
  }

  function Document(body: Body): Option<Node> {
    if body.Blank? then Some(EMPTY_DOC) else if body.bytes > MAX_BODY_BYTES then None else body.parsed
  }

  /** The content an input stands for, unless something in it is refused. */
  function Prepared(desk: Desk, input: Input): Option<Content> {
    var title := Joined(Fields(desk.rules.space, input.title), " ");
    var subtitle, cover, caption :=
      TrimSpace(desk.rules, input.subtitle), TrimSpace(desk.rules, input.cover), TrimSpace(desk.rules, input.caption);
    var doc := Document(input.body);
    var tags := TagList(desk, input.tags);
    if |title| > MAX_TITLE || |subtitle| > MAX_SUBTITLE || (cover != "" && !desk.rules.safeImage(cover))
       || |caption| > MAX_CAPTION || doc.None? || !Acceptable(desk.rules, doc.value) || !TagsOk(tags) then None
    else Some(Content(title, subtitle, cover, caption, doc.value,
                      ExcerptOf(desk.rules, FirstFour(Paragraphs(desk.rules, doc.value))),
                      MinutesFor(WordCount(desk.rules, doc.value)), tags))
  }

  /** The content is the writer's: the title's words a space apart, the other texts without the
      white space around them, the document as it was sent, and the topics named. */
  ghost predicate StandsFor(desk: Desk, input: Input, c: Content) {
    && c.title == Joined(Fields(desk.rules.space, input.title), " ")
    && c.subtitle == TrimSpace(desk.rules, input.subtitle)
    && c.cover == TrimSpace(desk.rules, input.cover)
    && c.caption == TrimSpace(desk.rules, input.caption)
    && (match input.body
        case Blank => c.body == EMPTY_DOC
        case Raw(_, parsed) => parsed == Some(c.body))
    && TopicsOf(desk, input.tags, c.tags)
  }

  ghost predicate TopicsOf(desk: Desk, raw: seq<string>, tags: seq<string>) {
    forall t :: t in tags <==> t != "" && exists i :: 0 <= i < |raw| && NormalTag(desk, raw[i]) == t
  }

  /** What is accepted stands for the input with the facts derived from it; and it is accepted
      exactly when every part is within its bounds and safe. */
  lemma {:induction false} PreparedStandsFor(desk: Desk, input: Input)
    ensures Prepared(desk, input).Some? ==> StandsFor(desk, input, Prepared(desk, input).value)
    ensures Prepared(desk, input).Some? <==>
      exists c :: StandsFor(desk, input, c) && Decent(desk, c) && (input.body.Raw? ==> input.body.bytes <= 524288)
  {
    forall t
      ensures t in TagList(desk, input.tags) <==>
        t != "" && exists i :: 0 <= i < |input.tags| && NormalTag(desk, input.tags[i]) == t
    {
      TagsAreTheTopics(desk, input.tags, t);
    }
    if Prepared(desk, input).Some? {
      PreparedIsDecent(desk, input);
    } else {
      forall c | StandsFor(desk, input, c) && Decent(desk, c) ensures input.body.Raw? && input.body.bytes > 524288 {
        SameTopicsAreOk(c.tags, TagList(desk, input.tags));
      }
    }
  }

  /** The bounds on topics do not depend on their order. */
  lemma {:induction false} SameTopicsAreOk(tags: seq<string>, tags': seq<string>)
    requires TagsOk(tags) && forall t :: t in tags <==> t in tags'
    requires forall i, j :: 0 <= i < j < |tags'| ==> tags'[i] != tags'[j]
    requires forall i, j :: 0 <= i < j < |tags| ==> tags[i] != tags[j]
    ensures TagsOk(tags')
  {
    AsManyTopics(tags, tags');
    forall i | 0 <= i < |tags'| ensures |tags'[i]| <= MAX_TAG {
      assert tags'[i] in tags;
    }
  }

  lemma {:induction false} AsManyTopics(tags: seq<string>, tags': seq<string>)
    requires forall t :: t in tags <==> t in tags'
    requires forall i, j :: 0 <= i < j < |tags'| ==> tags'[i] != tags'[j]
    requires forall i, j :: 0 <= i < j < |tags| ==> tags[i] != tags[j]
    ensures |tags| == |tags'|
  {
    SetOf(tags);
    SetOf(tags');
    assert (set t | t in tags) == (set t | t in tags');
  }

  lemma {:induction false} SetOf(tags: seq<string>)
    requires forall i, j :: 0 <= i < j < |tags| ==> tags[i] != tags[j]
    ensures |set t | t in tags| == |tags|
  {
    if tags != [] {
      var front, last := tags[..|tags| - 1], tags[|tags| - 1];
      assert tags == front + [last];
      SetOf(front);
      assert (set t | t in tags) == (set t | t in front) + {last};
    }
  }

  /** A topic is named with or without a '#' in front, in any case and spacing. */
  lemma {:induction false} TopicsAreNormalised(desk: Desk, raw: string, name: string)
    requires TrimSpace(desk.rules, raw) == name || TrimSpace(desk.rules, raw) == "#" + name
    requires TrimSpace(desk.rules, raw) == name ==> name == "" || name[0] != '#'
    ensures NormalTag(desk, raw) == desk.lower(Joined(Fields(desk.rules.space, name), " "))
  {
    assert ("#" + name)[1..] == name;
  }

  lemma PreparedIsDecent(desk: Desk, input: Input)
    ensures var r := Prepared(desk, input); r.Some? ==> Decent(desk, r.value)
    ensures var r := Prepared(desk, input); r.Some? ==>
      |r.value.title| <= 160 && |r.value.subtitle| <= 300 && |r.value.caption| <= 300 && |r.value.tags| <= 8
  {
  }

  lemma OneReadingTime(words: nat, m: nat, n: nat)
    requires ReadingTime(words, m) && ReadingTime(words, n)
    ensures m == n
  {
  }

  lemma {:induction false} LongTagIsRefused(desk: Desk, raw: seq<string>, i: nat)
    requires i < |raw| && |NormalTag(desk, raw[i])| > MAX_TAG && NormalTag(desk, raw[i]) !in TagList(desk, raw[..i])
    ensures !TagsOk(TagList(desk, raw))
  {
    var k := |TagList(desk, raw[..i])|;
    TagStep(desk, raw, i);
    TagsGrow(desk, raw, i + 1);
    assert TagList(desk, raw)[k] == TagList(desk, raw[..i + 1])[k];
  }

  /** A tag too long is refused as soon as it is met. */
  method NormaliseTags(desk: Desk, raw: seq<string>) returns (r: Option<seq<string>>)
    ensures r == if TagsOk(TagList(desk, raw)) then Some(TagList(desk, raw)) else None
  {
    var out: seq<string>, seen: set<string> := [], {};
    for i := 0 to |raw|
      invariant out == TagList(desk, raw[..i])
      invariant forall t :: t in seen <==> t in out
      invariant forall j :: 0 <= j < |out| ==> |out[j]| <= MAX_TAG
    {
      var t := NormalTag(desk, raw[i]);
      TagStep(desk, raw, i);
      if t == "" || t in seen {
        continue;
      }
      if |t| > MAX_TAG {
        LongTagIsRefused(desk, raw, i);
        return None;
      }
      seen := seen + {t};
      out := out + [t];
    }
    assert raw[..|raw|] == raw;
    return if |out| > MAX_TAGS then None else Some(out);
  }

  method ApplyInput(desk: Desk, input: Input) returns (r: Option<Content>)
    ensures r == Prepared(desk, input)
  {
    var title := Joined(Fields(desk.rules.space, input.title), " ");
    if |title| > MAX_TITLE { return None; }
    var subtitle := TrimSpace(desk.rules, input.subtitle);
    if |subtitle| > MAX_SUBTITLE { return None; }
    var cover := TrimSpace(desk.rules, input.cover);
    if cover != "" && !desk.rules.safeImage(cover) { return None; }
    var caption := TrimSpace(desk.rules, input.caption);
    if |caption| > MAX_CAPTION { return None; }
    var parsed := Some(EMPTY_DOC);
    if input.body.Raw? {
      if input.body.bytes > MAX_BODY_BYTES { return None; }
      parsed := input.body.parsed;
    }
    var facts := CheckBody(desk.rules, parsed);
    if facts.Err? { return None; }
    OneReadingTime(facts.value.words, facts.value.minutes, MinutesFor(facts.value.words));
    var tags := NormaliseTags(desk, input.tags);
    if tags.None? { return None; }
    return Some(Content(title, subtitle, cover, caption, parsed.value, facts.value.excerpt, facts.value.minutes,
        tags.value));
  }

  // ---------------------------------------------------- decided from one copy

  datatype Op = Edit(input: Input) | Submit(publishAt: Option<int>) | RequestChanges(note: string) | Withdraw

  /** Readers can see it. */
  predicate Live(a: Article, now: int) {
    a.status.Published? && a.publishAt.Some? && a.publishAt.value <= now
  }

  /** What an article needs before anyone else reads it. */
  predicate Ready(desk: Desk, c: Content) {
    TrimSpace(desk.rules, c.title) != "" && Acceptable(desk.rules, c.body) && WordCount(desk.rules, c.body) > 0
  }

  function ArticleSlug(desk: Desk, title: string, suffix: string): string {
    Slug.ArticleSlug(desk.classes, desk.fold(title), suffix)
  }

  function Edited(desk: Desk, who: Claims, a: Article, input: Input): Result<Article, Error> {
    var prepared := Prepared(desk, input);
    if !who.role.Admin? && (a.status.InReview? || a.status.Published?) then Err(Forbidden)
    else if prepared.None? then Err(Invalid)
    else
      Ok(a.(content := prepared.value,
            slug := if a.firstPublishedAt.None? then ArticleSlug(desk, prepared.value.title, Slug.SlugSuffix(a.slug))
              else a.slug))
  }

  function WholeSecond(t: int): (whole: int)
    ensures whole % SECOND == 0 && whole <= t < whole + SECOND
  {
    t - t % SECOND
  }

  /** A time asked for: none if it is not ahead, refused if it is too far ahead. */
  function Requested(publishAt: Option<int>, now: int): Result<Option<int>, Error> {
    if publishAt.None? then Ok(None)
    else if WholeSecond(publishAt.value) > now + MAX_SCHEDULE_AHEAD then Err(Invalid)
    else if WholeSecond(publishAt.value) <= now then Ok(None)
    else Ok(Some(WholeSecond(publishAt.value)))
  }

  /** When an article goes live: the time named now, else the writer's if it is still ahead,
      else at once. */
  function PublicationAt(a: Article, requested: Option<int>, now: int): int {
    if requested.Some? then requested.value
    else if a.status.InReview? && a.publishAt.Some? && a.publishAt.value > now then a.publishAt.value
    else now
  }

  function PublishedBy(who: Claims, a: Article, requested: Option<int>, now: int): Result<Article, Error> {
    if Live(a, now) then Err(Conflict)
    else
      var at := PublicationAt(a, requested, now);
      Ok(a.(status := Published, publishAt := Some(at),
            firstPublishedAt := if a.firstPublishedAt.None? then Some(at) else a.firstPublishedAt,
            reviewerId := Some(who.user), reviewedAt := Some(now), note := ""))
  }

  function Submitted(desk: Desk, who: Claims, a: Article, publishAt: Option<int>, now: int): Result<Article, Error> {
    var requested := Requested(publishAt, now);
    if !Ready(desk, a.content) then Err(Invalid)
    else if requested.Err? then Err(requested.error)
    else if who.role.Admin? then PublishedBy(who, a, requested.value, now)
    else if a.status.Draft? || a.status.ChangesRequested?
    then Ok(a.(status := InReview, submittedAt := Some(now), publishAt := requested.value))
    else Err(Conflict)
  }

  function SentBack(desk: Desk, who: Claims, a: Article, note: string, now: int): Result<Article, Error> {
    var text := TrimSpace(desk.rules, note);
    if !who.role.Admin? then Err(Forbidden)
    else if !a.status.InReview? then Err(Conflict)
    else if text == "" || |text| > MAX_NOTE then Err(Invalid)
    else Ok(a.(status := ChangesRequested, reviewerId := Some(who.user), reviewedAt := Some(now), note := text))
  }

  function Withdrawn(a: Article): Result<Article, Error> {
    match a.status
    case InReview => Ok(a.(publishAt := None, submittedAt := None, status := Draft))
    case Published => Ok(a.(publishAt := None, status := Draft))
    case _ => Err(Conflict)
  }

  /** The row an operation would write, given the row it read. */
  function Decide(desk: Desk, op: Op, who: Claims, a: Article, now: int): Result<Article, Error> {
    match op
    case Edit(input) => Edited(desk, who, a, input)
    case Submit(publishAt) => Submitted(desk, who, a, publishAt, now)
    case RequestChanges(note) => SentBack(desk, who, a, note, now)
    case Withdraw => Withdrawn(a)
  }

  /** The review workflow as a diagram: where an operation leads from a status, and for
      whom. An edit stays where it is; only an administrator edits what is in review or
      published. */
  function Next(op: Op, who: Claims, before: Status): Option<Status> {
    var open := before.Draft? || before.ChangesRequested?;
    match op
    case Edit(_) => if who.role.Admin? || open then Some(before) else None
    case Submit(_) => if who.role.Admin? then Some(Published) else if open then Some(InReview) else None
    case RequestChanges(_) => if who.role.Admin? && before.InReview? then Some(ChangesRequested) else None
    case Withdraw => if open then None else Some(Draft)
  }

  /** What the operation needs besides its place in the diagram. */
  predicate Qualifies(desk: Desk, op: Op, who: Claims, a: Article, now: int) {
    match op
    case Edit(input) => Prepared(desk, input).Some?
    case Submit(publishAt) => Ready(desk, a.content) && Requested(publishAt, now).Ok?
      && !(who.role.Admin? && Live(a, now))
    case RequestChanges(note) => 0 < |TrimSpace(desk.rules, note)| <= MAX_NOTE
    case Withdraw => true
  }

  /** An operation succeeds exactly when the diagram has a place for it to go and it
      qualifies; it then goes there, and never changes whose article it is. */
  lemma {:induction false} DecisionsFollowTheDiagram(desk: Desk, op: Op, who: Claims, a: Article, now: int)
    ensures Decide(desk, op, who, a, now).Ok? <==> Next(op, who, a.status).Some? && Qualifies(desk, op, who, a, now)
    ensures var decided := Decide(desk, op, who, a, now);
      decided.Ok? ==> Next(op, who, a.status) == Some(decided.value.status) && decided.value.author == a.author
  {
    match op {
      case Edit(input) =>
      case Submit(publishAt) =>
      case RequestChanges(note) =>
      case Withdraw =>
    }
  }

  /** Published means: live at once, or at a whole second at most a year and a day ahead --
      the administrator's if they named one, else the writer's if it is still ahead; and the
      date of first publication is set once. */
  lemma {:induction false} PublicationTime(desk: Desk, who: Claims, a: Article, publishAt: Option<int>, now: int)
    requires who.role.Admin? && Decide(desk, Submit(publishAt), who, a, now).Ok?
    ensures var p := Decide(desk, Submit(publishAt), who, a, now).value;
      var named := publishAt.Some? && WholeSecond(publishAt.value) > now;
      var asked := a.status.InReview? && a.publishAt.Some? && a.publishAt.value > now;
      && !Live(a, now) && p.publishAt.Some? && p.publishAt.value >= now
      && (named ==> p.publishAt == Some(WholeSecond(publishAt.value)) && p.publishAt.value <= now + MAX_SCHEDULE_AHEAD)
      && (!named && asked ==> p.publishAt == a.publishAt)
      && (!named && !asked ==> Live(p, now) && p.publishAt == Some(now))
      && p.firstPublishedAt == (if a.firstPublishedAt.Some? then a.firstPublishedAt else p.publishAt)
      && p.content == a.content && p.slug == a.slug
  {
  }

  /** An edit writes the content the input stands for, and an address that follows the title
      until the first publication; nothing else of the row changes. */
  ghost predicate EditFrom(desk: Desk, was: Article, input: Input, a: Article) {
    && StandsFor(desk, input, a.content) && a == was.(content := a.content, slug := a.slug)
    && a.slug == if was.firstPublishedAt.Some? then was.slug
      else AddressOf(desk, a.content.title, Slug.SlugSuffix(was.slug))
  }

  lemma {:induction false} AddressesAgree(desk: Desk, title: string, suffix: string)
    ensures ArticleSlug(desk, title, suffix) == AddressOf(desk, title, suffix)
  {}

  lemma {:induction false} EditWrites(desk: Desk, who: Claims, a: Article, input: Input)
    ensures Edited(desk, who, a, input).Ok? ==> EditFrom(desk, a, input, Edited(desk, who, a, input).value)
  {
    PreparedStandsFor(desk, input);
    if Prepared(desk, input).Some? {
      AddressesAgree(desk, Prepared(desk, input).value.title, Slug.SlugSuffix(a.slug));
    }
  }

  /** A writer's submission is up for review, with the time asked for if it is still ahead; an
      administrator's is published and closes the review. */
  lemma {:induction false} SubmitWrites(desk: Desk, who: Claims, a: Article, publishAt: Option<int>, now: int)
    requires Submitted(desk, who, a, publishAt, now).Ok?
    ensures var r := Submitted(desk, who, a, publishAt, now).value;
      if who.role.Admin? then
        r == a.(status := Published, publishAt := r.publishAt, firstPublishedAt := r.firstPublishedAt,
                reviewerId := Some(who.user), reviewedAt := Some(now), note := "")
      else
        && r == a.(status := InReview, submittedAt := Some(now), publishAt := r.publishAt)
        && (publishAt.None? || WholeSecond(publishAt.value) <= now ==> r.publishAt == None)
        && (publishAt.Some? && WholeSecond(publishAt.value) > now ==> r.publishAt == Some(WholeSecond(publishAt.value)))
  {}

  /** Sent back with the reviewer's note, trimmed, and the time asked for kept. */
  lemma {:induction false} SendingBackWrites(desk: Desk, who: Claims, a: Article, note: string, now: int)
    requires SentBack(desk, who, a, note, now).Ok?
    ensures var text := TrimSpace(desk.rules, note);
      && 0 < |text| <= 2000
      && SentBack(desk, who, a, note, now).value
        == a.(status := ChangesRequested, reviewerId := Some(who.user), reviewedAt := Some(now), note := text)
  {}

  /** Back to a draft without a time; what leaves the review is no longer submitted. */
  lemma {:induction false} WithdrawalWrites(a: Article)
    requires Withdrawn(a).Ok?
    ensures Withdrawn(a).value.status == Draft && Withdrawn(a).value.publishAt == None
    ensures Withdrawn(a).value.submittedAt == if a.status.InReview? then None else a.submittedAt
    ensures var r := Withdrawn(a).value;
      r == a.(status := r.status, publishAt := r.publishAt, submittedAt := r.submittedAt)
  {}

  /** A new draft of the writer's at an address that was free. */
  ghost predicate DraftFrom(desk: Desk, articles: Table, who: Claims, input: Input, draws: seq<string>, id: nat,
        a: Article)
    requires |draws| >= ATTEMPTS
  {
    && StandsFor(desk, input, a.content)
    && a == Article(a.slug, who.user, a.content, Draft, None, None, None, None, None, "")
    && (exists k :: 0 <= k < 3 && a.slug == AddressOf(desk, a.content.title, draws[k]))
    && (forall j :: j in articles && j != id ==> articles[j].slug != a.slug)
  }

  lemma {:induction false} InsertionWrites(desk: Desk, articles: Table, who: Claims, input: Input, counted: nat,
        id: nat, draws: seq<string>)
    requires |draws| >= ATTEMPTS
    ensures var r := Inserted(desk, articles, who, input, counted, id, draws);
      r.Ok? ==> counted < 1000 && DraftFrom(desk, articles, who, input, draws, id, r.value)
  {
    PreparedStandsFor(desk, input);
    if Inserted(desk, articles, who, input, counted, id, draws).Ok? {
      DraftIsFresh(desk, articles, who, Prepared(desk, input).value, id, draws);
    }
  }

  lemma {:induction false} DraftIsFresh(desk: Desk, articles: Table, who: Claims, c: Content, id: nat,
        draws: seq<string>)
    requires |draws| >= ATTEMPTS && FirstFree(desk, articles, who, c, id, draws, 0).Ok?
    ensures var a := FirstFree(desk, articles, who, c, id, draws, 0).value;
      && a == Article(a.slug, who.user, c, Draft, None, None, None, None, None, "")
      && (exists k :: 0 <= k < 3 && a.slug == AddressOf(desk, c.title, draws[k]))
      && (forall j :: j in articles && j != id ==> articles[j].slug != a.slug)
  {
    FreeOrConflict(desk, articles, who, c, id, draws, 0);
    var a := FirstFree(desk, articles, who, c, id, draws, 0).value;
    var k :| 0 <= k < ATTEMPTS && a == DraftOf(desk, who, c, draws[k]);
    AddressesAgree(desk, c.title, draws[k]);
  }

  /** The address of a title: its words, or a stand-in if it has none, and the suffix. */
  function AddressOf(desk: Desk, title: string, suffix: string): string {
    var words := Slug.SlugOf(desk.classes, desk.fold(title));
    if words == "" then "article-" + suffix else words + "-" + suffix
  }

  /** Ready for readers: a title with something in it, and an acceptable body with a word in it. */
  lemma {:induction false} ReadyIff(desk: Desk, c: Content)
    ensures Ready(desk, c) <==>
      && (exists i :: 0 <= i < |c.title| && !desk.rules.space(c.title[i]))
      && Acceptable(desk.rules, c.body) && WordCount(desk.rules, c.body) >= 1
  {
    TrimmedToNothing(desk.rules, c.title);
  }

  predicate MayDelete(who: Claims, a: Article) {
    who.role.Admin? || !a.status.Published?
  }

  // ------------------------------------------------------------- the table

  /** An editor's desk holds their own articles; an administrator's holds all. */
  predicate Reachable(articles: Table, who: Claims, id: nat) {
    id in articles && (who.role.Admin? || articles[id].author == who.user)
  }

  predicate SlugTaken(articles: Table, id: nat, slug: string) {
    exists j :: j in articles && j != id && articles[j].slug == slug
  }

  /** Write a whole row back: no such row, or an address another row holds, is an error. */
  function Stored(articles: Table, id: nat, a: Article): Result<Table, Error> {
    if id !in articles then Err(NotFound)
    else if SlugTaken(articles, id, a.slug) then Err(Conflict)
    else Ok(articles[id := a])
  }

  function Reader(a: Article): Article {
    a.(reviewerId := None, reviewedAt := None, note := "", submittedAt := None)
  }

  function WriterError(claims: Option<Claims>): Option<Error> {
    if claims.None? then Some(Unauthorized) else if claims.value.role.Member? then Some(Forbidden) else None
  }

  function DraftOf(desk: Desk, who: Claims, c: Content, suffix: string): Article {
    Article(ArticleSlug(desk, c.title, suffix), who.user, c, Draft, None, None, None, None, None, "")
  }

  function Owned(articles: Table, user: string): nat {
    |set j | j in articles && articles[j].author == user|
  }

  /** A draft at the first free address among the draws from `i` on. */
  function FirstFree(desk: Desk, articles: Table, who: Claims, c: Content, id: nat, draws: seq<string>, i: nat)
    : Result<Article, Error>
    requires |draws| >= ATTEMPTS && i <= ATTEMPTS
    decreases ATTEMPTS - i
  {
    if i == ATTEMPTS then Err(Conflict)
    else if SlugTaken(articles, id, ArticleSlug(desk, c.title, draws[i]))
      then FirstFree(desk, articles, who, c, id, draws, i + 1)
    else Ok(DraftOf(desk, who, c, draws[i]))
  }

  /** `counted` is how many articles the writer had when they were counted. */
  function Inserted(desk: Desk, articles: Table, who: Claims, input: Input, counted: nat, id: nat, draws: seq<string>)
    : Result<Article, Error>
    requires |draws| >= ATTEMPTS
  {
    var c := Prepared(desk, input);
    if c.None? || counted >= MAX_ARTICLES_PER_AUTHOR then Err(Invalid)
    else FirstFree(desk, articles, who, c.value, id, draws, 0)
  }

  /** A draft goes to a free address with one of the drawn suffixes; there is none exactly
      when every draw is taken. */
  lemma {:induction false} FreeOrConflict(desk: Desk, articles: Table, who: Claims, c: Content, id: nat,
        draws: seq<string>, i: nat)
    requires |draws| >= ATTEMPTS && i <= ATTEMPTS
    ensures var r := FirstFree(desk, articles, who, c, id, draws, i);
      && (r.Ok? ==> !SlugTaken(articles, id, r.value.slug))
      && (r.Ok? ==> exists k :: i <= k < ATTEMPTS && r.value == DraftOf(desk, who, c, draws[k]))
      && (r.Err? <==> forall k :: i <= k < ATTEMPTS ==> SlugTaken(articles, id, DraftOf(desk, who, c, draws[k]).slug))
    decreases ATTEMPTS - i
  {
    if i < ATTEMPTS {
      FreeOrConflict(desk, articles, who, c, id, draws, i + 1);
      assert DraftOf(desk, who, c, draws[i]).slug == ArticleSlug(desk, c.title, draws[i]);
    }
  }

  /** One operation with nothing in between. */
  function Lone(desk: Desk, articles: Table, id: nat, op: Op, who: Claims, now: int): Result<(Article, Table), Error> {
    if op.RequestChanges? && !who.role.Admin? then Err(Forbidden)
    else if !Reachable(articles, who, id) then Err(NotFound)
    else
      var decided := Decide(desk, op, who, articles[id], now);
      if decided.Err? then Err(decided.error)
      else
        var stored := Stored(articles, id, decided.value);
        if stored.Err? then Err(stored.error) else Ok((decided.value, stored.value))
  }

  ghost predicate EditStored(desk: Desk, before: Table, id: nat, input: Input, a: Article, after: Table) {
    id in before && after == before[id := a] && EditFrom(desk, before[id], input, a)
  }

  lemma {:induction false} LoneEditStores(desk: Desk, articles: Table, id: nat, input: Input, who: Claims, now: int)
    ensures var lone := Lone(desk, articles, id, Edit(input), who, now);
      lone.Ok? ==> EditStored(desk, articles, id, input, lone.value.0, lone.value.1)
  {
    if id in articles { EditWrites(desk, who, articles[id], input); }
  }

  /** The reading passed for operations that do not look at the clock. */
  const NO_CLOCK := 0

  class ArticleService {
    const desk: Desk
    var articles: Table

    constructor (desk: Desk)
      ensures this.desk == desk && articles == map[]
    {
      this.desk := desk;
      articles := map[];
    }

    /** What the operation does to the table and answers. */
    ghost predicate Does(before: Table, id: nat, op: Op, who: Claims, now: int, r: Result<Article, Error>)
      reads this
    {
      var lone := Lone(desk, before, id, op, who, now);
      && (lone.Ok? ==> r == Ok(lone.value.0) && articles == lone.value.1)
      && (lone.Err? ==> r == Err(lone.error) && articles == before)
    }

    method Save(id: nat, a: Article) returns (r: Result<Article, Error>)
      modifies this
      ensures var stored := Stored(old(articles), id, a);
        (stored.Ok? ==> r == Ok(a) && articles == stored.value) && (stored.Err?
          ==> r == Err(stored.error) && articles == old(articles))
    {
      if id !in articles { return Err(NotFound); }
      if SlugTaken(articles, id, a.slug) { return Err(Conflict); }
      articles := articles[id := a];
      return Ok(a);
    }

    method CountByAuthor(user: string) returns (n: nat)
      ensures n == Owned(articles, user)
    {
      n := |set j | j in articles && articles[j].author == user|;
    }

    /** The insert is retried with another suffix when the address is taken. `counted` is the
        count of the writer's articles read before, `draws` are the suffixes drawn, `id` the
        row's new id. */
    method Create(claims: Option<Claims>, input: Input, counted: nat, id: nat, draws: seq<string>)
      returns (r: Result<Article, Error>)
      requires id !in articles && |draws| >= ATTEMPTS
      modifies this
      ensures WriterError(claims).Some? ==> r == Err(WriterError(claims).value)
      ensures WriterError(claims).None? ==> r == Inserted(desk, old(articles), claims.value, input, counted, id, draws)
      ensures articles == if r.Ok? then old(articles)[id := r.value] else old(articles)
      ensures r.Ok? ==>
        && claims.Some? && !claims.value.role.Member? && counted < 1000
        && DraftFrom(desk, old(articles), claims.value, input, draws, id, r.value)
    {
      if claims.Some? { InsertionWrites(desk, articles, claims.value, input, counted, id, draws); }
      if claims.None? { return Err(Unauthorized); }
      var who := claims.value;
      if who.role.Member? { return Err(Forbidden); }
      var prepared := ApplyInput(desk, input);
      if prepared.None? || counted >= MAX_ARTICLES_PER_AUTHOR { return Err(Invalid); }
      for i := 0 to ATTEMPTS
        invariant articles == old(articles)
        invariant FirstFree(desk, articles, who, prepared.value, id, draws, 0)
          == FirstFree(desk, articles, who, prepared.value, id, draws, i)
      {
        var a := DraftOf(desk, who, prepared.value, draws[i]);
        if !SlugTaken(articles, id, a.slug) {
          articles := articles[id := a];
          return Ok(a);
        }
      }
      return Err(Conflict);
    }

    method Update(claims: Option<Claims>, id: nat, input: Input) returns (r: Result<Article, Error>)
      modifies this
      ensures WriterError(claims).Some? ==> r == Err(WriterError(claims).value) && articles == old(articles)
      ensures WriterError(claims).None? ==> Does(old(articles), id, Edit(input), claims.value, NO_CLOCK, r)
      ensures r.Ok? ==> EditStored(desk, old(articles), id, input, r.value, articles)
    {
      if claims.Some? { LoneEditStores(desk, articles, id, input, claims.value, NO_CLOCK); }
      if claims.None? { return Err(Unauthorized); }
      var who := claims.value;
      if who.role.Member? { return Err(Forbidden); }
      if id !in articles || (!who.role.Admin? && articles[id].author != who.user) { return Err(NotFound); }
      var a := articles[id];
      if !who.role.Admin? {
        match a.status {
          case InReview => return Err(Forbidden);
          case Published => return Err(Forbidden);
          case _ =>
        }
      }
      var prepared := ApplyInput(desk, input);
      if prepared.None? { return Err(Invalid); }
      a := a.(content := prepared.value);
      if a.firstPublishedAt.None? {
        a := a.(slug := ArticleSlug(desk, a.content.title, Slug.SlugSuffix(a.slug)));
      }
      r := Save(id, a);
    }

    method Submit(claims: Option<Claims>, id: nat, publishAt: Option<int>, now: int) returns (r: Result<Article, Error>)
      modifies this
      ensures WriterError(claims).Some? ==> r == Err(WriterError(claims).value) && articles == old(articles)
      ensures WriterError(claims).None? ==> Does(old(articles), id, Op.Submit(publishAt), claims.value, now, r)
    {
      if claims.None? { return Err(Unauthorized); }
      var who := claims.value;
      if who.role.Member? { return Err(Forbidden); }
      if id !in articles || (!who.role.Admin? && articles[id].author != who.user) { return Err(NotFound); }
      var a := articles[id];
      if !Ready(desk, a.content) { return Err(Invalid); }
      var asked := publishAt;
      if asked.Some? {
        var t := WholeSecond(asked.value);
        if t > now + MAX_SCHEDULE_AHEAD { return Err(Invalid); }
        asked := if t <= now then None else Some(t);
      }
      if who.role.Admin? {
        r := Publish(who, id, a, asked, now);
        return;
      }
      match a.status {
        case InReview => return Err(Conflict);
        case Published => return Err(Conflict);
        case _ =>
      }
      a := a.(status := InReview);
      a := a.(submittedAt := Some(now));
      a := a.(publishAt := asked);
      r := Save(id, a);
    }

    /** An administrator publishing, scheduling or rescheduling. */
    method Publish(who: Claims, id: nat, read: Article, publishAt: Option<int>, now: int)
      returns (r: Result<Article, Error>)
      modifies this
      ensures var decided := PublishedBy(who, read, publishAt, now);
        if decided.Err? then r == Err(decided.error) && articles == old(articles)
        else var stored := Stored(old(articles), id, decided.value);
          if stored.Ok? then r == Ok(decided.value) && articles == stored.value
            else r == Err(stored.error) && articles == old(articles)
    {
      var a, asked := read, publishAt;
      if Live(a, now) { return Err(Conflict); }
      if asked.None? && a.status.InReview? && a.publishAt.Some? && a.publishAt.value > now {
        asked := a.publishAt;
      }
      var at := now;
      if asked.Some? { at := asked.value; }
      a := a.(status := Published);
      a := a.(publishAt := Some(at));
      if a.firstPublishedAt.None? { a := a.(firstPublishedAt := Some(at)); }
      a := a.(reviewerId := Some(who.user), reviewedAt := Some(now), note := "");
      r := Save(id, a);
    }

    method RequestChanges(claims: Option<Claims>, id: nat, note: string, now: int) returns (r: Result<Article, Error>)
      modifies this
      ensures WriterError(claims).Some? ==> r == Err(WriterError(claims).value) && articles == old(articles)
      ensures WriterError(claims).None? ==> Does(old(articles), id, Op.RequestChanges(note), claims.value, now, r)
    {
      if claims.None? { return Err(Unauthorized); }
      var who := claims.value;
      if !who.role.Admin? { return Err(Forbidden); }
      if id !in articles { return Err(NotFound); }
      var a := articles[id];
      if !a.status.InReview? { return Err(Conflict); }
      var text := TrimSpace(desk.rules, note);
      if text == "" { return Err(Invalid); }
      if |text| > MAX_NOTE { return Err(Invalid); }
      a := a.(status := ChangesRequested);
      a := a.(reviewerId := Some(who.user), reviewedAt := Some(now));
      a := a.(note := text);
      r := Save(id, a);
    }

    method Withdraw(claims: Option<Claims>, id: nat) returns (r: Result<Article, Error>)
      modifies this
      ensures WriterError(claims).Some? ==> r == Err(WriterError(claims).value) && articles == old(articles)
      ensures WriterError(claims).None? ==> Does(old(articles), id, Op.Withdraw, claims.value, NO_CLOCK, r)
    {
      if claims.None? { return Err(Unauthorized); }
      var who := claims.value;
      if who.role.Member? { return Err(Forbidden); }
      if id !in articles || (!who.role.Admin? && articles[id].author != who.user) { return Err(NotFound); }
      var a := articles[id];
      match a.status {
        case InReview => a := a.(publishAt := None); a := a.(submittedAt := None);
        case Published => a := a.(publishAt := None);
        case _ => return Err(Conflict);
      }
      a := a.(status := Draft);
      r := Save(id, a);
    }

    method Delete(claims: Option<Claims>, id: nat) returns (r: Result<(), Error>)
      modifies this
      ensures WriterError(claims).Some? ==> r == Err(WriterError(claims).value)
      ensures r.Err? ==> articles == old(articles)
      ensures r.Ok? ==> articles == old(articles) - {id}
      ensures WriterError(claims).None? ==>
        (r.Ok? <==> Reachable(old(articles), claims.value, id) && MayDelete(claims.value, old(articles)[id]))
      ensures r.Ok? && claims.value.role.Editor? ==>
        old(articles)[id].author == claims.value.user && !old(articles)[id].status.Published?
      ensures WriterError(claims).None? && !Reachable(old(articles), claims.value, id) ==> r == Err(NotFound)
    {
      if claims.None? { return Err(Unauthorized); }
      var who := claims.value;
      if who.role.Member? { return Err(Forbidden); }
      if id !in articles || (!who.role.Admin? && articles[id].author != who.user) { return Err(NotFound); }
      if !who.role.Admin? && articles[id].status.Published? { return Err(Forbidden); }
      articles := articles - {id};
      return Ok(());
    }

    /** A reader's view: the live article at that address, without the desk's notes. */
    method GetLive(slug: string, now: int) returns (r: Result<Article, Error>)
      ensures r.Ok? <==> (0 < Slug.ByteLength(slug) <= 200
        && exists id ::
          id in articles && articles[id].slug == slug && articles[id].status == Published
          && articles[id].publishAt.Some? && articles[id].publishAt.value <= now)
      ensures r.Ok? ==> exists id ::
        && id in articles && articles[id].slug == slug && articles[id].status == Published
        && articles[id].publishAt.Some? && articles[id].publishAt.value <= now
        && r.value == articles[id].(reviewerId := None, reviewedAt := None, note := "", submittedAt := None)
      ensures r.Err? ==> r.error == NotFound
    {
      if slug == "" || Slug.ByteLength(slug) > LONGEST_ADDRESS { return Err(NotFound); }
      if id :| id in articles && articles[id].slug == slug && Live(articles[id], now) {
        return Ok(Reader(articles[id]));
      }
      return Err(NotFound);
    }
  }
}
