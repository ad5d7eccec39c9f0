/** The body of an article: a tree of nodes, read in one early-exit walk that checks every
    node, bounds the whole, and gathers words and opening paragraphs.

    Regular expressions, URL parsing and Unicode classes are the predicates of `Rules`. */
module ArticleBody {
  import opened Common

  const MAX_DEPTH := 12
  const MAX_NODES := 20000
  const MAX_TEXT := 200_000
  const EXCERPT_AT := 280
  const WORDS_PER_MINUTE := 230
  const ELLIPSIS := '\U{2026}'

  const BLOCK_TYPES := {
    "doc", "paragraph", "heading", "text", "hardBreak", "bulletList", "orderedList", "listItem", "blockquote",
    "horizontalRule", "figure", "tacticBoard", "video"
  }
  const MARK_TYPES := {"bold", "italic", "strike", "underline", "link"}

  datatype Value = Str(s: string) | Number(f: real) | Other

  datatype Mark = Mark(kind: string, attrs: map<string, Value>)

  datatype Node = Node(kind: string, attrs: map<string, Value>, content: seq<Node>, marks: seq<Mark>, text: string)

  datatype Rules = Rules(
    safeImage: string -> bool, safeLink: string -> bool, validSlug: string -> bool,
    youtubeId: string -> bool, vimeoId: string -> bool, space: char -> bool, punct: char -> bool)

  datatype Fault =
    | NotADocument | TooLong | TooDeep | UnknownBlock(kind: string) | UnknownMark(kind: string) | UnsafeLink
    | BadHeading | UnsafeImage | UnsafeImageLink | BadBoard | BadYoutube | BadVimeo | UnknownProvider

  datatype Facts = Facts(excerpt: string, minutes: nat, words: nat)

  // -------------------------------------------------------- one node's own rule

  /** An attribute as text; anything else, or nothing, is the empty string. */
  function Text(attrs: map<string, Value>, name: string): (text: string)
    ensures name in attrs && attrs[name].Str? ==> attrs[name] == Str(text)
    ensures !(name in attrs && attrs[name].Str?) ==> text == ""
  {
    if name in attrs && attrs[name].Str? then attrs[name].s else ""
  }

  /** An attribute that is a whole number. */
  function Whole(attrs: map<string, Value>, name: string): (whole: Option<int>)
    ensures whole.Some? ==> name in attrs && attrs[name] == Number(whole.value as real)
    ensures whole.None? && name in attrs && attrs[name].Number? ==> attrs[name].f != attrs[name].f.Floor as real
  {
    if name in attrs && attrs[name].Number? && attrs[name].f == attrs[name].f.Floor as real
    then Some(attrs[name].f.Floor) else None
  }

  predicate MarkOk(rules: Rules, m: Mark) {
    m.kind in MARK_TYPES && (m.kind == "link" ==> rules.safeLink(Text(m.attrs, "href")))
  }

  predicate VideoOk(rules: Rules, attrs: map<string, Value>) {
    (Text(attrs, "provider") == "youtube" && rules.youtubeId(Text(attrs, "id")))
    || (Text(attrs, "provider") == "vimeo" && rules.vimeoId(Text(attrs, "id")))
  }

  predicate FigureOk(rules: Rules, attrs: map<string, Value>) {
    rules.safeImage(Text(attrs, "src")) && (Text(attrs, "href") == "" || rules.safeLink(Text(attrs, "href")))
  }

  /** What a node of each type must satisfy, whatever stands around it. */
  predicate NodeOk(rules: Rules, n: Node) {
    && n.kind in BLOCK_TYPES
    && (n.kind == "text" ==> forall i :: 0 <= i < |n.marks| ==> MarkOk(rules, n.marks[i]))
    && (n.kind == "heading" ==> Whole(n.attrs, "level") in {Some(2), Some(3), Some(4)})
    && (n.kind == "figure" ==> FigureOk(rules, n.attrs))
    && (n.kind == "tacticBoard" ==> rules.validSlug(Text(n.attrs, "slug")))
    && (n.kind == "video" ==> VideoOk(rules, n.attrs))
  }

  const PLAIN_TYPES :=
    {"doc", "paragraph", "hardBreak", "bulletList", "orderedList", "listItem", "blockquote", "horizontalRule"}

  /** Which nodes pass, by their type and attributes: text with known marks whose links are safe,
      headings of level two to four, figures and videos and boards that check out, every node
      of the plain types, and no other. */
  lemma {:induction false} WhatEachTypeNeeds(rules: Rules, n: Node)
    ensures n.kind in PLAIN_TYPES ==> NodeOk(rules, n)
    ensures NodeOk(rules, n) ==> n.kind in PLAIN_TYPES + {"heading", "text", "figure", "tacticBoard", "video"}
    ensures n.kind == "heading" ==>
      (NodeOk(rules, n) <==> "level" in n.attrs && n.attrs["level"] in {Number(2.0), Number(3.0), Number(4.0)})
    ensures n.kind == "tacticBoard" ==> (NodeOk(rules, n) <==> rules.validSlug(Text(n.attrs, "slug")))
    ensures n.kind == "figure" ==>
      var href := Text(n.attrs, "href");
      (NodeOk(rules, n) <==> rules.safeImage(Text(n.attrs, "src")) && (href != "" ==> rules.safeLink(href)))
    ensures n.kind == "video" ==>
      var provider, id := Text(n.attrs, "provider"), Text(n.attrs, "id");
      (NodeOk(rules, n) <==>
        (provider == "youtube" && rules.youtubeId(id)) || (provider == "vimeo" && rules.vimeoId(id)))
    ensures n.kind == "text" ==>
      (NodeOk(rules, n) <==> forall i :: 0 <= i < |n.marks| ==>
        n.marks[i].kind in {"bold", "italic", "strike", "underline"}
        || (n.marks[i].kind == "link" && rules.safeLink(Text(n.marks[i].attrs, "href"))))
  {
    assert 2 as real == 2.0 && 3 as real == 3.0 && 4 as real == 4.0;
  }

  /** A fault names a rule the node really breaks. */
  predicate Breaks(rules: Rules, n: Node, fault: Fault) {
    match fault
    case UnknownBlock(kind) => n.kind == kind && kind !in BLOCK_TYPES
    case UnknownMark(kind) => n.kind == "text" && kind !in MARK_TYPES && exists i ::
      0 <= i < |n.marks| && n.marks[i].kind == kind
    case UnsafeLink => n.kind == "text"
      && exists i :: 0 <= i < |n.marks| && n.marks[i].kind == "link" && !rules.safeLink(Text(n.marks[i].attrs, "href"))
    case BadHeading => n.kind == "heading" && Whole(n.attrs, "level") !in {Some(2), Some(3), Some(4)}
    case UnsafeImage => n.kind == "figure" && !rules.safeImage(Text(n.attrs, "src"))
    case UnsafeImageLink => n.kind == "figure" && Text(n.attrs, "href") != "" && !rules.safeLink(Text(n.attrs, "href"))
    case BadBoard => n.kind == "tacticBoard" && !rules.validSlug(Text(n.attrs, "slug"))
    case BadYoutube => n.kind == "video" && Text(n.attrs, "provider") == "youtube"
      && !rules.youtubeId(Text(n.attrs, "id"))
    case BadVimeo => n.kind == "video" && Text(n.attrs, "provider") == "vimeo" && !rules.vimeoId(Text(n.attrs, "id"))
    case UnknownProvider => n.kind == "video" && Text(n.attrs, "provider") !in {"youtube", "vimeo"}
    case _ => false
  }

  method CheckMark(rules: Rules, m: Mark) returns (r: Option<Fault>)
    ensures r.None? <==> MarkOk(rules, m)
    ensures r == Some(UnknownMark(m.kind)) ==> m.kind !in MARK_TYPES
    ensures r == Some(UnsafeLink) ==> m.kind == "link" && !rules.safeLink(Text(m.attrs, "href"))
    ensures r in {None, Some(UnknownMark(m.kind)), Some(UnsafeLink)}
  {
    if m.kind !in MARK_TYPES { return Some(UnknownMark(m.kind)); }
    if m.kind == "link" && !rules.safeLink(Text(m.attrs, "href")) { return Some(UnsafeLink); }
    return None;
  }

  /** The switch on the node's type, text nodes' counters aside. */
  method CheckNode(rules: Rules, n: Node) returns (r: Option<Fault>)
    requires n.kind in BLOCK_TYPES
    ensures r.None? <==> NodeOk(rules, n)
    ensures r.Some? ==> Breaks(rules, n, r.value)
  {
    match n.kind {
      case "text" =>
        for i := 0 to |n.marks|
          invariant forall j :: 0 <= j < i ==> MarkOk(rules, n.marks[j])
        {
          r := CheckMark(rules, n.marks[i]);
          if r.Some? { return; }
        }
      case "heading" =>
        var level := Whole(n.attrs, "level");
        if level.None? || level.value < 2 || level.value > 4 { return Some(BadHeading); }
      case "figure" =>
        if !rules.safeImage(Text(n.attrs, "src")) { return Some(UnsafeImage); }
        var href := Text(n.attrs, "href");
        if href != "" && !rules.safeLink(href) { return Some(UnsafeImageLink); }
      case "tacticBoard" =>
        if !rules.validSlug(Text(n.attrs, "slug")) { return Some(BadBoard); }
      case "video" =>
        var id := Text(n.attrs, "id");
        match Text(n.attrs, "provider") {
          case "youtube" => if !rules.youtubeId(id) { return Some(BadYoutube); }
          case "vimeo" => if !rules.vimeoId(id) { return Some(BadVimeo); }
          case _ => return Some(UnknownProvider);
        }
      case _ =>
    }
    return None;
  }

  // ------------------------------------------------------------ text and words

  /** How far the first word of a text that starts with one reaches. */
  function WordEnd(space: char -> bool, s: string): (k: nat)
    ensures k <= |s|
    ensures forall i :: 0 <= i < k ==> !space(s[i])
    ensures k < |s| ==> space(s[k])
  {
    if s == "" || space(s[0]) then 0 else WordEnd(space, s[1..]) + 1
  }

  /** The words of a text: its stretches without white space. */
  function Fields(space: char -> bool, s: string): seq<string>
    decreases |s|
  {
    if s == "" then []
    else if space(s[0]) then Fields(space, s[1..])
    else [s[..WordEnd(space, s)]] + Fields(space, s[WordEnd(space, s)..])
  }

  function Joined(words: seq<string>, separator: string): string {
    if words == [] then ""
    else if |words| == 1 then words[0]
    else words[0] + separator + Joined(words[1..], separator)
  }

  function TrimRight(s: string, drop: char -> bool): (r: string)
    ensures r <= s
    ensures forall i :: |r| <= i < |s| ==> drop(s[i])
    ensures r != "" ==> !drop(r[|r| - 1])
  {
    if s != "" && drop(s[|s| - 1]) then TrimRight(s[..|s| - 1], drop) else s
  }

  function TrimLeft(s: string, drop: char -> bool): string {
    if s != "" && drop(s[0]) then TrimLeft(s[1..], drop) else s
  }

  function TrimSpace(rules: Rules, s: string): string {
    TrimRight(TrimLeft(s, rules.space), rules.space)
  }

  predicate AllSpace(rules: Rules, s: string) {
    forall i :: 0 <= i < |s| ==> rules.space(s[i])
  }

  lemma {:induction false} TrimLeftDrops(rules: Rules, s: string) returns (a: string)
    ensures s == a + TrimLeft(s, rules.space) && AllSpace(rules, a)
    ensures TrimLeft(s, rules.space) != "" ==> !rules.space(TrimLeft(s, rules.space)[0])
    decreases |s|
  {
    if s != "" && rules.space(s[0]) {
      var rest := TrimLeftDrops(rules, s[1..]);
      a := [s[0]] + rest;
    } else {
      a := "";
    }
  }

  lemma {:induction false} TrimRightDrops(rules: Rules, s: string) returns (b: string)
    ensures s == TrimRight(s, rules.space) + b && AllSpace(rules, b)
  {
    var r := TrimRight(s, rules.space);
    b := s[|r|..];
    assert s == r + b;
  }

  /** Trimming takes white space off both ends and nothing else. */
  lemma {:induction false} TrimmedIsTheMiddle(rules: Rules, s: string) returns (a: string, b: string)
    ensures s == a + TrimSpace(rules, s) + b && AllSpace(rules, a) && AllSpace(rules, b)
    ensures var r := TrimSpace(rules, s); r != "" ==> !rules.space(r[0]) && !rules.space(r[|r| - 1])
  {
    a := TrimLeftDrops(rules, s);
    b := TrimRightDrops(rules, TrimLeft(s, rules.space));
    Regrouped(a, TrimSpace(rules, s), b);
  }

  lemma {:induction false} Regrouped(a: string, r: string, b: string)
    ensures a + (r + b) == a + r + b
  {}

  /** Only white space is trimmed to nothing. */
  lemma {:induction false} TrimmedToNothing(rules: Rules, s: string)
    ensures TrimSpace(rules, s) == "" <==> AllSpace(rules, s)
  {
    var a, b := TrimmedIsTheMiddle(rules, s);
    var r := TrimSpace(rules, s);
    if r == "" {
      assert s == a + b;
    } else {
      assert s[|a|] == r[0];
    }
  }

  function PlainText(n: Node): string
    decreases n, 0
  {
    if n.kind == "text" then n.text
    else if n.kind == "hardBreak" then " "
    else PlainTexts(n.content)
  }

  function PlainTexts(ns: seq<Node>): string
    decreases ns, 1
  {
    if ns == [] then "" else PlainTexts(ns[..|ns| - 1]) + PlainText(ns[|ns| - 1])
  }

  /** The paragraphs with any text, in the order they end. */
  function Paragraphs(rules: Rules, n: Node): seq<string>
    decreases n, 0
  {
    var own := TrimSpace(rules, PlainText(n));
    ParagraphsIn(rules, n.content) + if n.kind == "paragraph" && own != "" then [own] else []
  }

  function ParagraphsIn(rules: Rules, ns: seq<Node>): seq<string>
    decreases ns, 1
  {
    if ns == [] then [] else ParagraphsIn(rules, ns[..|ns| - 1]) + Paragraphs(rules, ns[|ns| - 1])
  }

  /** The paragraphs are the texts, trimmed and not empty, of the paragraph nodes the walk visits. */
  lemma {:induction false} ParagraphsAreVisited(rules: Rules, n: Node, depth: nat, t: string)
    ensures t in Paragraphs(rules, n) <==> exists v :: v in Visits(n, depth) && ParagraphText(rules, v.node, t)
    decreases n, 0
  {
    ParagraphsAreVisitedBelow(rules, n.content, depth + 1, t);
    assert Visit(n, depth) in Visits(n, depth);
    assert forall v :: v in Visits(n, depth) <==> v == Visit(n, depth) || v in VisitsIn(n.content, depth + 1);
  }

  lemma {:induction false} ParagraphsAreVisitedBelow(rules: Rules, ns: seq<Node>, depth: nat, t: string)
    ensures t in ParagraphsIn(rules, ns) <==> exists v :: v in VisitsIn(ns, depth) && ParagraphText(rules, v.node, t)
    decreases ns, 1
  {
    if ns != [] {
      ParagraphsAreVisitedBelow(rules, ns[..|ns| - 1], depth, t);
      ParagraphsAreVisited(rules, ns[|ns| - 1], depth, t);
    }
  }

  predicate ParagraphText(rules: Rules, n: Node, t: string) {
    n.kind == "paragraph" && t != "" && t == TrimSpace(rules, PlainText(n))
  }

  function FirstFour(paragraphs: seq<string>): (first: seq<string>)
    ensures first <= paragraphs && |first| == if |paragraphs| < 4 then |paragraphs| else 4
  {
    if |paragraphs| > 4 then paragraphs[..4] else paragraphs
  }

  // ---------------------------------------------------- the tree as a whole

  function RunesOf(n: Node): nat {
    if n.kind == "text" then |n.text| else 0
  }

  function WordsOf(rules: Rules, n: Node): nat {
    if n.kind == "text" then |Fields(rules.space, n.text)| else 0
  }

  /** How many nodes, how much text and how many words hang from a node. */
  function NodeCount(n: Node): nat
    decreases n, 0
  {
    1 + NodeCountIn(n.content)
  }

  function NodeCountIn(ns: seq<Node>): nat
    decreases ns, 1
  {
    if ns == [] then 0 else NodeCountIn(ns[..|ns| - 1]) + NodeCount(ns[|ns| - 1])
  }

  function RuneCount(n: Node): nat
    decreases n, 0
  {
    RunesOf(n) + RuneCountIn(n.content)
  }

  function RuneCountIn(ns: seq<Node>): nat
    decreases ns, 1
  {
    if ns == [] then 0 else RuneCountIn(ns[..|ns| - 1]) + RuneCount(ns[|ns| - 1])
  }

  function WordCount(rules: Rules, n: Node): nat
    decreases n, 0
  {
    WordsOf(rules, n) + WordCountIn(rules, n.content)
  }

  function WordCountIn(rules: Rules, ns: seq<Node>): nat
    decreases ns, 1
  {
    if ns == [] then 0 else WordCountIn(rules, ns[..|ns| - 1]) + WordCount(rules, ns[|ns| - 1])
  }

  /** Every node satisfies its rule and none lies deeper than allowed. */
  predicate Sound(rules: Rules, n: Node, depth: nat)
    decreases n, 0
  {
    depth <= MAX_DEPTH && NodeOk(rules, n) && SoundIn(rules, n.content, depth + 1)
  }

  predicate SoundIn(rules: Rules, ns: seq<Node>, depth: nat)
    decreases ns, 1
  {
    ns == [] || (SoundIn(rules, ns[..|ns| - 1], depth) && Sound(rules, ns[|ns| - 1], depth))
  }

  /** The bodies an article may have. */
  predicate Acceptable(rules: Rules, doc: Node) {
    && doc.kind == "doc"
    && Sound(rules, doc, 0)
    && NodeCount(doc) <= MAX_NODES
    && RuneCount(doc) <= MAX_TEXT
  }

  // ---------------------------------------------------- the order of the walk

  datatype Visit = Visit(node: Node, depth: nat)

  function Visits(n: Node, depth: nat): seq<Visit>
    decreases n, 0
  {
    [Visit(n, depth)] + VisitsIn(n.content, depth + 1)
  }

  function VisitsIn(ns: seq<Node>, depth: nat): seq<Visit>
    decreases ns, 1
  {
    if ns == [] then [] else VisitsIn(ns[..|ns| - 1], depth) + Visits(ns[|ns| - 1], depth)
  }

  function Runes(visits: seq<Visit>): nat {
    if visits == [] then 0 else Runes(visits[..|visits| - 1]) + RunesOf(visits[|visits| - 1].node)
  }

  predicate VisitOk(rules: Rules, v: Visit) {
    v.depth <= MAX_DEPTH && NodeOk(rules, v.node)
  }

  predicate AllOk(rules: Rules, visits: seq<Visit>) {
    visits == [] || (AllOk(rules, visits[..|visits| - 1]) && VisitOk(rules, visits[|visits| - 1]))
  }

  /** Visiting these after `nodes` nodes and `runes` runes meets no fault. */
  predicate Fits(rules: Rules, nodes: nat, runes: nat, visits: seq<Visit>) {
    && nodes + |visits| <= MAX_NODES
    && runes + Runes(visits) <= MAX_TEXT
    && AllOk(rules, visits)
  }

  predicate Exhibits(rules: Rules, nodes: nat, runes: nat, v: Visit, fault: Fault) {
    || (fault == TooLong && (nodes > MAX_NODES || runes > MAX_TEXT))
    || (fault == TooDeep && v.depth > MAX_DEPTH)
    || Breaks(rules, v.node, fault)
  }

  predicate FirstAt(rules: Rules, nodes: nat, runes: nat, visits: seq<Visit>, fault: Fault, k: nat) {
    && k < |visits|
    && Fits(rules, nodes, runes, visits[..k])
    && Exhibits(rules, nodes + k + 1, runes + Runes(visits[..k + 1]), visits[k], fault)
  }

  /** The first faulty visit shows this fault. */
  ghost predicate FirstFault(rules: Rules, nodes: nat, runes: nat, visits: seq<Visit>, fault: Fault) {
    exists k :: FirstAt(rules, nodes, runes, visits, fault, k)
  }

  lemma {:induction false} RunesAppend(xs: seq<Visit>, ys: seq<Visit>)
    ensures Runes(xs + ys) == Runes(xs) + Runes(ys)
    decreases |ys|
  {
    if ys == [] {
      assert xs + ys == xs;
    } else {
      RunesAppend(xs, ys[..|ys| - 1]);
      assert (xs + ys)[..|xs + ys| - 1] == xs + ys[..|ys| - 1];
    }
  }

  lemma {:induction false} AllOkAppend(rules: Rules, xs: seq<Visit>, ys: seq<Visit>)
    ensures AllOk(rules, xs + ys) <==> AllOk(rules, xs) && AllOk(rules, ys)
    decreases |ys|
  {
    if ys == [] {
      assert xs + ys == xs;
    } else {
      AllOkAppend(rules, xs, ys[..|ys| - 1]);
      assert (xs + ys)[..|xs + ys| - 1] == xs + ys[..|ys| - 1];
    }
  }

  lemma {:induction false} FitsAppend(rules: Rules, nodes: nat, runes: nat, xs: seq<Visit>, ys: seq<Visit>)
    ensures Fits(rules, nodes, runes, xs + ys) <==>
      (Fits(rules, nodes, runes, xs) && Fits(rules, nodes + |xs|, runes + Runes(xs), ys))
  {
    RunesAppend(xs, ys);
    AllOkAppend(rules, xs, ys);
  }

  /** A fault met among the first visits is the first fault of all. */
  lemma {:induction false} FaultStays(rules: Rules, nodes: nat, runes: nat, xs: seq<Visit>, ys: seq<Visit>,
        fault: Fault)
    requires FirstFault(rules, nodes, runes, xs, fault)
    ensures FirstFault(rules, nodes, runes, xs + ys, fault)
  {
    var k: nat :| FirstAt(rules, nodes, runes, xs, fault, k);
    assert (xs + ys)[..k] == xs[..k] && (xs + ys)[..k + 1] == xs[..k + 1];
    assert FirstAt(rules, nodes, runes, xs + ys, fault, k);
  }

  lemma {:induction false} ShiftedPrefix(xs: seq<Visit>, ys: seq<Visit>, k: nat)
    requires k < |ys|
    ensures (xs + ys)[..|xs| + k] == xs + ys[..k] && (xs + ys)[|xs| + k] == ys[k]
    ensures Runes((xs + ys)[..|xs| + k + 1]) == Runes(xs) + Runes(ys[..k + 1])
  {
    assert (xs + ys)[..|xs| + k + 1] == xs + ys[..k + 1];
    RunesAppend(xs, ys[..k + 1]);
  }

  lemma {:induction false} ShiftedAt(rules: Rules, nodes: nat, runes: nat, xs: seq<Visit>, ys: seq<Visit>,
        fault: Fault, k: nat)
    requires Fits(rules, nodes, runes, xs) && FirstAt(rules, nodes + |xs|, runes + Runes(xs), ys, fault, k)
    ensures FirstAt(rules, nodes, runes, xs + ys, fault, |xs| + k)
  {
    ShiftedPrefix(xs, ys, k);
    FitsAppend(rules, nodes, runes, xs, ys[..k]);
  }

  /** A fault met after visits that fit is the first fault of all. */
  lemma {:induction false} FaultAfter(rules: Rules, nodes: nat, runes: nat, xs: seq<Visit>, ys: seq<Visit>,
        fault: Fault)
    requires Fits(rules, nodes, runes, xs) && FirstFault(rules, nodes + |xs|, runes + Runes(xs), ys, fault)
    ensures FirstFault(rules, nodes, runes, xs + ys, fault)
  {
    var k: nat :| FirstAt(rules, nodes + |xs|, runes + Runes(xs), ys, fault, k);
    ShiftedAt(rules, nodes, runes, xs, ys, fault, k);
  }

  lemma {:induction false} ExhibitedDoesNotFit(rules: Rules, nodes: nat, runes: nat, front: seq<Visit>, v: Visit,
        fault: Fault)
    requires Exhibits(rules, nodes + |front| + 1, runes + Runes(front + [v]), v, fault)
    ensures !Fits(rules, nodes, runes, front + [v])
  {
    var visits := front + [v];
    assert visits[..|visits| - 1] == front && visits[|visits| - 1] == v;
    if fault != TooLong && v.depth <= MAX_DEPTH { assert !NodeOk(rules, v.node); }
  }

  /** A first fault is a fault: what shows one does not fit. */
  lemma {:induction false} FaultIsReal(rules: Rules, nodes: nat, runes: nat, visits: seq<Visit>, fault: Fault)
    requires FirstFault(rules, nodes, runes, visits, fault)
    ensures !Fits(rules, nodes, runes, visits)
  {
    var k: nat :| FirstAt(rules, nodes, runes, visits, fault, k);
    var seen := visits[..k + 1];
    assert seen == visits[..k] + [visits[k]] && visits == seen + visits[k + 1..];
    ExhibitedDoesNotFit(rules, nodes, runes, visits[..k], visits[k], fault);
    FitsAppend(rules, nodes, runes, seen, visits[k + 1..]);
  }

  lemma {:induction false} VisitsPrefix(ns: seq<Node>, i: nat, depth: nat)
    requires i <= |ns|
    ensures VisitsIn(ns[..i], depth) <= VisitsIn(ns, depth)
    decreases |ns|
  {
    if i == |ns| {
      assert ns[..i] == ns;
    } else {
      VisitsPrefix(ns[..|ns| - 1], i, depth);
      assert ns[..|ns| - 1][..i] == ns[..i];
    }
  }

  // ---------------------------------------- the walk's order and the whole tree

  /** The walk visits every node once, ... */
  lemma {:induction false} VisitsCountTheTree(n: Node, depth: nat)
    ensures |Visits(n, depth)| == NodeCount(n) && Runes(Visits(n, depth)) == RuneCount(n)
    decreases n, 0
  {
    VisitsCountTheForest(n.content, depth + 1);
    RunesAppend([Visit(n, depth)], VisitsIn(n.content, depth + 1));
    assert [Visit(n, depth)][..0] == [];
  }

  lemma {:induction false} VisitsCountTheForest(ns: seq<Node>, depth: nat)
    ensures |VisitsIn(ns, depth)| == NodeCountIn(ns) && Runes(VisitsIn(ns, depth)) == RuneCountIn(ns)
    decreases ns, 1
  {
    if ns != [] {
      var front, last := ns[..|ns| - 1], ns[|ns| - 1];
      VisitsCountTheForest(front, depth);
      VisitsCountTheTree(last, depth);
      RunesAppend(VisitsIn(front, depth), Visits(last, depth));
    }
  }

  /** ... and at its own depth. */
  lemma {:induction false} VisitsJudgeTheTree(rules: Rules, n: Node, depth: nat)
    ensures AllOk(rules, Visits(n, depth)) <==> Sound(rules, n, depth)
    decreases n, 0
  {
    VisitsJudgeTheForest(rules, n.content, depth + 1);
    AllOkAppend(rules, [Visit(n, depth)], VisitsIn(n.content, depth + 1));
    assert [Visit(n, depth)][..0] == [];
  }

  lemma {:induction false} VisitsJudgeTheForest(rules: Rules, ns: seq<Node>, depth: nat)
    ensures AllOk(rules, VisitsIn(ns, depth)) <==> SoundIn(rules, ns, depth)
    decreases ns, 1
  {
    if ns != [] {
      var front, last := ns[..|ns| - 1], ns[|ns| - 1];
      VisitsJudgeTheForest(rules, front, depth);
      VisitsJudgeTheTree(rules, last, depth);
      AllOkAppend(rules, VisitsIn(front, depth), Visits(last, depth));
    }
  }

  /** No fault on the walk means exactly an acceptable body. */
  lemma {:induction false} FitsIffAcceptable(rules: Rules, doc: Node)
    requires doc.kind == "doc"
    ensures Fits(rules, 0, 0, Visits(doc, 0)) <==> Acceptable(rules, doc)
  {
    VisitsCountTheTree(doc, 0);
    VisitsJudgeTheTree(rules, doc, 0);
  }

  lemma {:induction false} AllOkIsEach(rules: Rules, visits: seq<Visit>)
    ensures AllOk(rules, visits) <==> forall v :: v in visits ==> VisitOk(rules, v)
    decreases |visits|
  {
    if visits != [] {
      var front, last := visits[..|visits| - 1], visits[|visits| - 1];
      assert visits == front + [last];
      AllOkIsEach(rules, front);
    }
  }

  /** The bodies an article may have, said of the walk: at most 20000 nodes, none deeper than
      twelve, 200000 runes, and each node right by its own rule. */
  lemma {:induction false} AcceptableIff(rules: Rules, doc: Node)
    ensures Acceptable(rules, doc) <==>
      && doc.kind == "doc" && |Visits(doc, 0)| <= 20_000 && Runes(Visits(doc, 0)) <= 200_000
      && (forall v :: v in Visits(doc, 0) ==> v.depth <= 12 && NodeOk(rules, v.node))
  {
    if doc.kind == "doc" {
      FitsIffAcceptable(rules, doc);
      AllOkIsEach(rules, Visits(doc, 0));
    }
  }

  /** What a node without children counts and reads as. */
  lemma {:induction false} LeafCounts(rules: Rules, n: Node)
    requires n.content == []
    ensures NodeCount(n) == 1
    ensures n.kind == "text" ==>
      RuneCount(n) == |n.text| && WordCount(rules, n) == |Fields(rules.space, n.text)| && PlainText(n) == n.text
    ensures n.kind != "text" ==>
      RuneCount(n) == 0 && WordCount(rules, n) == 0 && PlainText(n) == if n.kind == "hardBreak" then " " else ""
  {}

  /** One child more adds its own nodes, runes, words and text. */
  lemma {:induction false} BranchCounts(rules: Rules, n: Node, child: Node)
    ensures var more := n.(content := n.content + [child]);
      && NodeCount(more) == NodeCount(n) + NodeCount(child)
      && RuneCount(more) == RuneCount(n) + RuneCount(child)
      && WordCount(rules, more) == WordCount(rules, n) + WordCount(rules, child)
      && (n.kind != "text" && n.kind != "hardBreak" ==> PlainText(more) == PlainText(n) + PlainText(child))
  {
    assert (n.content + [child])[..|n.content|] == n.content;
  }

  // ------------------------------------------------------------------ excerpt

  function Opening(rules: Rules, paragraphs: seq<string>): string {
    Joined(Fields(rules.space, Joined(paragraphs, " ")), " ")
  }

  function LastWhere(s: string, p: char -> bool): (i: int)
    ensures -1 <= i < |s|
    ensures i >= 0 ==> p(s[i])
    ensures forall j :: i < j < |s| ==> !p(s[j])
  {
    if s == "" then -1 else if p(s[|s| - 1]) then |s| - 1 else LastWhere(s[..|s| - 1], p)
  }

  function ExcerptOf(rules: Rules, paragraphs: seq<string>): string {
    var text := Opening(rules, paragraphs);
    if |text| <= EXCERPT_AT then text
    else
      var runes := text[..EXCERPT_AT];
      var cut := LastWhere(runes, rules.space);
      if cut <= 0 then runes + [ELLIPSIS]
      else TrimRight(runes[..cut], c => rules.space(c) || rules.punct(c)) + [ELLIPSIS]
  }

  /** A preview is the whole opening, or a bounded beginning of it that stops in a word only
      if it starts with a word too long to fit. */
  lemma ExcerptEndsAtAWord(rules: Rules, paragraphs: seq<string>)
    ensures var text := Joined(Fields(rules.space, Joined(paragraphs, " ")), " ");
      var e := ExcerptOf(rules, paragraphs);
      |text| <= EXCERPT_AT ==> e == text
    ensures var text := Joined(Fields(rules.space, Joined(paragraphs, " ")), " ");
      var e := ExcerptOf(rules, paragraphs);
      |text| > EXCERPT_AT ==>
        && 0 < |e| <= EXCERPT_AT + 1 && e[|e| - 1] == ELLIPSIS && e[..|e| - 1] <= text
        && ((exists i :: 0 < i < EXCERPT_AT && rules.space(text[i]))
              ==> |e| - 1 < EXCERPT_AT && (rules.space(text[|e| - 1]) || rules.punct(text[|e| - 1])))
  {
    var text := Opening(rules, paragraphs);
    if |text| > EXCERPT_AT {
      var e := ExcerptOf(rules, paragraphs);
      var runes := text[..EXCERPT_AT];
      var cut := LastWhere(runes, rules.space);
      assert forall i :: 0 <= i < EXCERPT_AT ==> runes[i] == text[i];
      if cut > 0 {
        var kept := TrimRight(runes[..cut], c => rules.space(c) || rules.punct(c));
        assert e[..|e| - 1] == kept && kept <= runes[..cut] && runes[..cut] <= text;
        if |kept| < cut { assert runes[..cut][|kept|] == text[|kept|]; }
      } else {
        assert e[..|e| - 1] == runes;
      }
    }
  }

  // ----------------------------------------------------------------- the walk

  /** The walker's counters and paragraphs. */
  datatype Tally = Tally(nodes: nat, runes: nat, words: nat, paragraphs: seq<string>)

  predicate Good(t: Tally) {
    t.nodes <= MAX_NODES && t.runes <= MAX_TEXT && |t.paragraphs| <= 4
  }

  /** The tally after a whole subtree. */
  function Tallied(rules: Rules, t: Tally, n: Node, depth: nat): Tally {
    Tally(t.nodes + |Visits(n, depth)|, t.runes + Runes(Visits(n, depth)), t.words + WordCount(rules, n),
          FirstFour(t.paragraphs + Paragraphs(rules, n)))
  }

  function Seen(n: Node, depth: nat, i: nat): seq<Visit>
    requires i <= |n.content|
  {
    [Visit(n, depth)] + VisitsIn(n.content[..i], depth + 1)
  }

  /** A node and its first children are walked without a fault, and tallied. */
  predicate Done(rules: Rules, t0: Tally, n: Node, depth: nat, i: nat, t: Tally)
    requires i <= |n.content|
  {
    && Good(t)
    && Fits(rules, t0.nodes, t0.runes, Seen(n, depth, i))
    && t.nodes == t0.nodes + |Seen(n, depth, i)|
    && t.runes == t0.runes + Runes(Seen(n, depth, i))
    && t.words == t0.words + WordsOf(rules, n) + WordCountIn(rules, n.content[..i])
    && t.paragraphs == FirstFour(t0.paragraphs + ParagraphsIn(rules, n.content[..i]))
  }

  predicate SingleFits(rules: Rules, nodes: nat, runes: nat, v: Visit) {
    nodes < MAX_NODES && runes + RunesOf(v.node) <= MAX_TEXT && VisitOk(rules, v)
  }

  lemma {:induction false} SingleVisit(rules: Rules, nodes: nat, runes: nat, v: Visit)
    requires nodes <= MAX_NODES && runes <= MAX_TEXT
    ensures Runes([v]) == RunesOf(v.node)
    ensures Fits(rules, nodes, runes, [v]) <==> SingleFits(rules, nodes, runes, v)
  {
    assert [v][..0] == [];
    assert AllOk(rules, [v]) <==> VisitOk(rules, v);
  }

  /** A fault at the node itself. */
  lemma {:induction false} OwnFault(rules: Rules, nodes: nat, runes: nat, n: Node, depth: nat, fault: Fault)
    requires nodes <= MAX_NODES && runes <= MAX_TEXT
    requires Exhibits(rules, nodes + 1, runes + RunesOf(n), Visit(n, depth), fault)
    ensures FirstFault(rules, nodes, runes, Visits(n, depth), fault)
    ensures !Fits(rules, nodes, runes, Visits(n, depth))
  {
    var v := Visit(n, depth);
    SingleVisit(rules, nodes, runes, v);
    assert [v][..0] == [] && [v][..1] == [v];
    assert FirstAt(rules, nodes, runes, [v], fault, 0);
    FaultStays(rules, nodes, runes, [v], VisitsIn(n.content, depth + 1), fault);
    FaultIsReal(rules, nodes, runes, Visits(n, depth), fault);
  }

  lemma {:induction false} OneMore(rules: Rules, n: Node, depth: nat, i: nat)
    requires i < |n.content|
    ensures Seen(n, depth, i + 1) == Seen(n, depth, i) + Visits(n.content[i], depth + 1)
    ensures WordCountIn(rules, n.content[..i + 1])
      == WordCountIn(rules, n.content[..i]) + WordCount(rules, n.content[i])
    ensures ParagraphsIn(rules, n.content[..i + 1])
      == ParagraphsIn(rules, n.content[..i]) + Paragraphs(rules, n.content[i])
  {
    assert n.content[..i + 1][..i] == n.content[..i];
  }

  lemma FourOfFour(xs: seq<string>, ys: seq<string>)
    ensures FirstFour(FirstFour(xs) + ys) == FirstFour(xs + ys)
  {
  }

  lemma {:induction false} ChildWalked(rules: Rules, t0: Tally, n: Node, depth: nat, i: nat, t: Tally)
    requires i < |n.content| && Done(rules, t0, n, depth, i, t)
    requires Fits(rules, t.nodes, t.runes, Visits(n.content[i], depth + 1))
    ensures Done(rules, t0, n, depth, i + 1, Tallied(rules, t, n.content[i], depth + 1))
  {
    var child := n.content[i];
    OneMore(rules, n, depth, i);
    FitsAppend(rules, t0.nodes, t0.runes, Seen(n, depth, i), Visits(child, depth + 1));
    RunesAppend(Seen(n, depth, i), Visits(child, depth + 1));
    var read := t0.paragraphs + ParagraphsIn(rules, n.content[..i]);
    FourOfFour(read, Paragraphs(rules, child));
    assert t0.paragraphs + ParagraphsIn(rules, n.content[..i + 1]) == read + Paragraphs(rules, child);
  }

  lemma {:induction false} SeenIsPrefix(n: Node, depth: nat, i: nat)
    requires i <= |n.content|
    ensures Seen(n, depth, i) <= Visits(n, depth)
  {
    VisitsPrefix(n.content, i, depth + 1);
  }

  /** A fault below is the first on the way, and the whole does not fit. */
  lemma {:induction false} ChildFaulty(rules: Rules, t0: Tally, n: Node, depth: nat, i: nat, t: Tally, fault: Fault)
    requires i < |n.content| && Done(rules, t0, n, depth, i, t)
    requires FirstFault(rules, t.nodes, t.runes, Visits(n.content[i], depth + 1), fault)
    ensures FirstFault(rules, t0.nodes, t0.runes, Visits(n, depth), fault)
    ensures !Fits(rules, t0.nodes, t0.runes, Visits(n, depth))
  {
    var seen := Seen(n, depth, i + 1);
    assert FirstFault(rules, t0.nodes, t0.runes, seen, fault) by {
      OneMore(rules, n, depth, i);
      FaultAfter(rules, t0.nodes, t0.runes, Seen(n, depth, i), Visits(n.content[i], depth + 1), fault);
    }
    FaultBelow(rules, t0.nodes, t0.runes, n, depth, i + 1, fault);
  }

  lemma {:induction false} FaultBelow(rules: Rules, nodes: nat, runes: nat, n: Node, depth: nat, i: nat, fault: Fault)
    requires i <= |n.content| && FirstFault(rules, nodes, runes, Seen(n, depth, i), fault)
    ensures FirstFault(rules, nodes, runes, Visits(n, depth), fault)
    ensures !Fits(rules, nodes, runes, Visits(n, depth))
  {
    SeenIsPrefix(n, depth, i);
    assert Visits(n, depth) == Seen(n, depth, i) + Visits(n, depth)[|Seen(n, depth, i)|..];
    FaultStays(rules, nodes, runes, Seen(n, depth, i), Visits(n, depth)[|Seen(n, depth, i)|..], fault);
    FaultIsReal(rules, nodes, runes, Visits(n, depth), fault);
  }

  /** All children walked; a paragraph then adds its own text, if there is room for it. */
  lemma {:induction false} AllWalked(rules: Rules, t0: Tally, n: Node, depth: nat, t: Tally)
    requires Done(rules, t0, n, depth, |n.content|, t)
    ensures Fits(rules, t0.nodes, t0.runes, Visits(n, depth))
    ensures var own := TrimSpace(rules, PlainText(n));
      t.(paragraphs := if n.kind == "paragraph" && |t.paragraphs| < 4 && own != "" then t.paragraphs + [own]
        else t.paragraphs)
        == Tallied(rules, t0, n, depth)
  {
    assert n.content[..|n.content|] == n.content;
    var inner := t0.paragraphs + ParagraphsIn(rules, n.content);
    var own := TrimSpace(rules, PlainText(n));
    var last := if n.kind == "paragraph" && own != "" then [own] else [];
    assert t0.paragraphs + Paragraphs(rules, n) == inner + last;
  }

  class BodyWalker {
    var nodes: nat
    var runes: nat
    var words: nat
    var paragraphs: seq<string>

    constructor ()
      ensures State() == Tally(0, 0, 0, [])
    {
      nodes, runes, words, paragraphs := 0, 0, 0, [];
    }

    ghost function State(): Tally
      reads this
    {
      Tally(nodes, runes, words, paragraphs)
    }

    /** Without a fault everything below the node fits and is tallied; with one, it is the
        first on the way. */
    method Walk(rules: Rules, n: Node, depth: nat) returns (r: Option<Fault>)
      requires Good(State())
      modifies this
      ensures r.None? <==> Fits(rules, old(nodes), old(runes), Visits(n, depth))
      ensures r.Some? ==> FirstFault(rules, old(nodes), old(runes), Visits(n, depth), r.value)
      ensures r.None? ==> Good(State()) && State() == Tallied(rules, old(State()), n, depth)
      decreases n
    {
      ghost var t0 := State();
      r := Enter(rules, n, depth);
      if r.Some? {
        OwnFault(rules, t0.nodes, t0.runes, n, depth, r.value);
        return;
      }
      for i := 0 to |n.content|
        invariant Done(rules, t0, n, depth, i, State())
      {
        ghost var t := State();
        r := Walk(rules, n.content[i], depth + 1);
        if r.Some? {
          ChildFaulty(rules, t0, n, depth, i, t, r.value);
          return;
        }
        ChildWalked(rules, t0, n, depth, i, t);
      }
      AllWalked(rules, t0, n, depth, State());
      if n.kind == "paragraph" && |paragraphs| < 4 {
        var text := TrimSpace(rules, PlainText(n));
        if text != "" { paragraphs := paragraphs + [text]; }
      }
      return None;
    }

    /** What the walk does at the node itself. */
    method Enter(rules: Rules, n: Node, depth: nat) returns (r: Option<Fault>)
      requires Good(State())
      modifies this
      ensures r.None? ==> Done(rules, old(State()), n, depth, 0, State())
      ensures r.Some? ==> Exhibits(rules, old(nodes) + 1, old(runes) + RunesOf(n), Visit(n, depth), r.value)
    {
      ghost var t0 := State();
      SingleVisit(rules, nodes, runes, Visit(n, depth));
      assert Seen(n, depth, 0) == [Visit(n, depth)];
      nodes := nodes + 1;
      if nodes > MAX_NODES { return Some(TooLong); }
      if depth > MAX_DEPTH { return Some(TooDeep); }
      if n.kind !in BLOCK_TYPES { return Some(UnknownBlock(n.kind)); }
      if n.kind == "text" {
        runes := runes + |n.text|;
        if runes > MAX_TEXT { return Some(TooLong); }
        words := words + |Fields(rules.space, n.text)|;
      }
      r := CheckNode(rules, n);
      assert t0.paragraphs + ParagraphsIn(rules, n.content[..0]) == t0.paragraphs;
    }
  }

  /** What the service derives from a body, or why it refuses it; `parsed` is the decoded
      document, if it is one. */
  method CheckBody(rules: Rules, parsed: Option<Node>) returns (r: Result<Facts, Fault>)
    ensures r.Ok? <==> parsed.Some? && Acceptable(rules, parsed.value)
    ensures r.Ok? ==> r.value.words == WordCount(rules, parsed.value)
    ensures r.Ok? ==> r.value.minutes >= 1 && r.value.words <= r.value.minutes * WORDS_PER_MINUTE
    ensures r.Ok? ==> r.value.minutes == 1 || (r.value.minutes - 1) * WORDS_PER_MINUTE < r.value.words
    ensures r.Ok? ==> r.value.excerpt == ExcerptOf(rules, FirstFour(Paragraphs(rules, parsed.value)))
    ensures r == Err(NotADocument) <==> parsed.None? || parsed.value.kind != "doc"
    ensures r.Err? && r.error != NotADocument ==> FirstFault(rules, 0, 0, Visits(parsed.value, 0), r.error)
  {
    if parsed.None? || parsed.value.kind != "doc" { return Err(NotADocument); }
    var doc := parsed.value;
    FitsIffAcceptable(rules, doc);
    var w := new BodyWalker();
    var fault := w.Walk(rules, doc, 0);
    if fault.Some? { return Err(fault.value); }
    var minutes := (w.words + WORDS_PER_MINUTE - 1) / WORDS_PER_MINUTE;
    if minutes < 1 { minutes := 1; }
    assert [] + Paragraphs(rules, doc) == Paragraphs(rules, doc);
    return Ok(Facts(ExcerptOf(rules, w.paragraphs), minutes, w.words));
  }
}
