/** The address of an article: the words of its title, then a random suffix.

    Titles arrive lower-cased and decomposed; the Unicode classes are the predicates of
    `Classes`, and offsets into an address count bytes where the program's do. */
module Slug {
  import opened ArticleBody

  const MAX_RUNES := 60
  const SHORTEST_CUT := 20
  const SUFFIX_LENGTH := 6

  datatype Classes = Classes(mark: char -> bool, alnum: char -> bool)

  /** A dash is neither a letter nor a digit. */
  ghost predicate Sane(classes: Classes) {
    !classes.alnum('-')
  }

  function Separator(classes: Classes): char -> bool {
    c => !classes.alnum(c)
  }

  predicate Dropped(classes: Classes, c: char) {
    classes.mark(c) || c == '\'' || c == '\U{2019}'
  }

  /** The title without its accents and apostrophes. */
  function Kept(classes: Classes, title: string): string {
    if title == "" then ""
    else Kept(classes, title[..|title| - 1]) + if Dropped(classes, title[|title| - 1]) then "" else [title[|title| - 1]]
  }

  /** Marks and apostrophes vanish, so that what they stood between stays one word. */
  lemma {:induction false} KeptSnoc(classes: Classes, title: string, c: char)
    ensures Kept(classes, title + [c]) ==
      if classes.mark(c) || c in {'\'', '\U{2019}'} then Kept(classes, title) else Kept(classes, title) + [c]
  {
    assert (title + [c])[..|title|] == title;
  }

  /** The title's words joined by dashes, however long. */
  function Dashed(classes: Classes, text: string): string {
    Joined(Fields(Separator(classes), text), "-")
  }

  function ByteWidth(c: char): (width: nat)
    ensures width == 1 <==> c <= '\U{7F}'
    ensures width == 2 <==> '\U{80}' <= c <= '\U{7FF}'
    ensures width == 4 <==> '\U{10000}' <= c
    ensures 1 <= width <= 4
  {
    if c as int < 0x80 then 1 else if c as int < 0x800 then 2 else if c as int < 0x10000 then 3 else 4
  }

  function ByteLength(s: string): (n: nat)
    ensures n >= |s|
  {
    if s == "" then 0 else ByteLength(s[..|s| - 1]) + ByteWidth(s[|s| - 1])
  }

  function LastDash(s: string): int {
    LastWhere(s, c => c == '-')
  }

  /** At most sixty runes and what completes a dash, cut back to whole words unless that
      would leave almost nothing. */
  function Shortened(full: string): string
  {
    var b := if |full| <= MAX_RUNES then full else if full[MAX_RUNES - 1] == '-' then full[..MAX_RUNES + 1]
      else full[..MAX_RUNES];
    var i := LastDash(b);
    if |b| == |full| || full[|b|] == '-' then b
    else if i >= 0 && ByteLength(b[..i]) > SHORTEST_CUT then b[..i]
    else b
  }

  function SlugOf(classes: Classes, title: string): string {
    Shortened(Dashed(classes, Kept(classes, title)))
  }

  /** No dash leads, trails or doubles. */
  predicate Neat(s: string) {
    && (s != "" ==> s[0] != '-' && s[|s| - 1] != '-')
    && forall i, j :: 0 <= i < |s| && j == i + 1 < |s| ==> s[i] != '-' || s[j] != '-'
  }

  // ----------------------------------------------------- words, one rune more

  /** What one more rune does to the words: nothing, a word of its own, or the last word's
      next letter. */
  function Snoc(space: char -> bool, ws: seq<string>, s: string, c: char): seq<string> {
    if space(c) then ws
    else if s == "" || space(s[|s| - 1]) || ws == [] then ws + [[c]]
    else ws[..|ws| - 1] + [ws[|ws| - 1] + [c]]
  }

  /** A text that is one word. */
  lemma {:induction false} OneWord(space: char -> bool, s: string)
    requires s != "" && forall i :: 0 <= i < |s| ==> !space(s[i])
    ensures Fields(space, s) == [s]
  {
    assert WordEnd(space, s) == |s|;
    assert s[..|s|] == s && s[|s|..] == "";
  }

  /** A word, then something that starts with white space. */
  lemma {:induction false} WordFirst(space: char -> bool, w: string, rest: string)
    requires w != "" && forall i :: 0 <= i < |w| ==> !space(w[i])
    requires rest != "" && space(rest[0])
    ensures Fields(space, w + rest) == [w] + Fields(space, rest)
  {
    var t := w + rest;
    assert forall i :: 0 <= i < |w| ==> t[i] == w[i];
    assert t[|w|] == rest[0];
    assert WordEnd(space, t) == |w|;
    assert t[..|w|] == w && t[|w|..] == rest;
  }

  lemma {:induction false} FieldsSnoc(space: char -> bool, s: string, c: char)
    ensures Fields(space, s + [c]) == Snoc(space, Fields(space, s), s, c)
    ensures s != "" && !space(s[|s| - 1]) ==> Fields(space, s) != []
    decreases |s|
  {
    if s == "" {
      assert s + [c] == [c];
      if !space(c) { OneWord(space, [c]); } else { assert [c][1..] == ""; }
    } else if space(s[0]) {
      assert (s + [c])[1..] == s[1..] + [c];
      FieldsSnoc(space, s[1..], c);
    } else {
      WordThenSnoc(space, s, c);
    }
  }

  lemma {:induction false} WordThenSnoc(space: char -> bool, s: string, c: char)
    requires s != "" && !space(s[0])
    ensures Fields(space, s + [c]) == Snoc(space, Fields(space, s), s, c)
    ensures Fields(space, s) != []
    decreases |s|, 0
  {
    var k := WordEnd(space, s);
    var w, rest := s[..k], s[k..];
    assert s == w + rest;
    if rest == "" {
      assert w == s;
      OneWord(space, s);
      if space(c) {
        WordFirst(space, s, [c]);
        assert [c][1..] == "";
      } else {
        OneWord(space, s + [c]);
      }
    } else {
      WordFirst(space, w, rest);
      WordFirst(space, w, rest + [c]);
      assert w + (rest + [c]) == s + [c];
      FieldsSnoc(space, rest, c);
      var ws := Fields(space, rest);
      assert rest[|rest| - 1] == s[|s| - 1];
      if !space(c) && !space(s[|s| - 1]) {
        assert ([w] + ws)[..|ws|] == [w] + ws[..|ws| - 1];
      }
    }
  }

  lemma {:induction false} JoinedSnoc(words: seq<string>, w: string, separator: string)
    ensures Joined(words + [w], separator) == if words == [] then w else Joined(words, separator) + separator + w
    decreases |words|
  {
    if |words| > 1 {
      assert (words + [w])[1..] == words[1..] + [w];
      JoinedSnoc(words[1..], w, separator);
    } else if |words| == 1 {
      assert (words + [w])[1..] == [w];
    }
  }

  /** One more rune of the kept title adds itself, a dash and itself, or nothing. */
  lemma {:induction false} DashedSnoc(classes: Classes, s: string, c: char)
    ensures Dashed(classes, s + [c]) ==
      if !classes.alnum(c) then Dashed(classes, s)
      else if s != "" && !classes.alnum(s[|s| - 1]) && Dashed(classes, s) != "" then Dashed(classes, s) + "-" + [c]
      else Dashed(classes, s) + [c]
  {
    var space := Separator(classes);
    var ws := Fields(space, s);
    FieldsSnoc(space, s, c);
    WordsAreNotEmpty(space, s);
    if classes.alnum(c) {
      if s == "" || space(s[|s| - 1]) {
        JoinedSnoc(ws, [c], "-");
        if ws != [] { JoinedIsNotEmpty(ws, "-"); }
      } else {
        var front, last := ws[..|ws| - 1], ws[|ws| - 1];
        assert ws == front + [last];
        JoinedSnoc(front, last, "-");
        JoinedSnoc(front, last + [c], "-");
      }
    }
  }

  lemma {:induction false} WordsAreNotEmpty(space: char -> bool, s: string)
    ensures forall i :: 0 <= i < |Fields(space, s)| ==> Fields(space, s)[i] != ""
    decreases |s|
  {
    if s == "" {
    } else if space(s[0]) {
      WordsAreNotEmpty(space, s[1..]);
    } else {
      WordsAreNotEmpty(space, s[WordEnd(space, s)..]);
    }
  }

  lemma JoinedIsNotEmpty(words: seq<string>, separator: string)
    requires words != [] && words[0] != ""
    ensures Joined(words, separator) != ""
  {
  }

  lemma {:induction false} DashedGrows(classes: Classes, s: string, i: nat)
    requires i <= |s|
    ensures Dashed(classes, s[..i]) <= Dashed(classes, s)
    decreases |s|
  {
    if i == |s| {
      assert s[..i] == s;
    } else {
      var front := s[..|s| - 1];
      DashedGrows(classes, front, i);
      assert front[..i] == s[..i] && s == front + [s[|s| - 1]];
      DashedSnoc(classes, front, s[|s| - 1]);
    }
  }

  lemma {:induction false} KeptGrows(classes: Classes, title: string, i: nat)
    requires i <= |title|
    ensures Kept(classes, title[..i]) <= Kept(classes, title)
    decreases |title|
  {
    if i == |title| {
      assert title[..i] == title;
    } else {
      KeptGrows(classes, title[..|title| - 1], i);
      assert title[..|title| - 1][..i] == title[..i];
    }
  }

  /** The dashed words so far are where the whole address begins. */
  lemma {:induction false} PrefixesAgree(classes: Classes, title: string, i: nat)
    requires i <= |title|
    ensures Dashed(classes, Kept(classes, title[..i])) <= Dashed(classes, Kept(classes, title))
  {
    KeptGrows(classes, title, i);
    var k := Kept(classes, title[..i]);
    assert Kept(classes, title)[..|k|] == k;
    DashedGrows(classes, Kept(classes, title), |k|);
  }

  /** A separator is pending after these runes of the title. */
  predicate Pending(classes: Classes, title: string) {
    var k := Kept(classes, title);
    k != "" && !classes.alnum(k[|k| - 1])
  }

  lemma {:induction false} OneRune(classes: Classes, title: string, i: nat)
    requires i < |title|
    ensures var k, c := Kept(classes, title[..i]), title[i];
      Kept(classes, title[..i + 1]) == if Dropped(classes, c) then k else k + [c]
    ensures var b, c := Dashed(classes, Kept(classes, title[..i])), title[i];
      Dashed(classes, Kept(classes, title[..i + 1])) ==
        if Dropped(classes, c) || !classes.alnum(c) then b
        else if Pending(classes, title[..i]) && b != "" then b + "-" + [c]
        else b + [c]
  {
    assert title[..i + 1][..i] == title[..i];
    DashedSnoc(classes, Kept(classes, title[..i]), title[i]);
  }

  /** Room for a rune more is decided at the sixtieth. */
  lemma ShortenedAt(full: string, b: string)
    requires b <= full && MAX_RUNES <= |b| <= MAX_RUNES + 1 && b[|b| - 1] != '-'
    requires |b| == MAX_RUNES + 1 ==> b[MAX_RUNES - 1] == '-'
    ensures Shortened(full) ==
      if |b| == |full| || full[|b|] == '-' then b
      else if LastDash(b) >= 0 && ByteLength(b[..LastDash(b)]) > SHORTEST_CUT then b[..LastDash(b)]
      else b
  {
    assert b == full[..|b|];
    assert full[MAX_RUNES - 1] == b[MAX_RUNES - 1];
  }

  /** What is written so far: within the limit, and not ending in a dash. */
  predicate Room(b: string) {
    |b| <= MAX_RUNES + 1 && (|b| == MAX_RUNES + 1 ==> b[MAX_RUNES - 1] == '-') && (b != "" ==> b[|b| - 1] != '-')
  }

  function Written(b: string, dash: bool, c: char): string {
    if dash && b != "" then b + "-" + [c] else b + [c]
  }

  lemma RoomForOne(b: string, dash: bool, c: char)
    requires Room(b) && |b| < MAX_RUNES && c != '-'
    ensures Room(Written(b, dash, c))
  {
  }

  lemma {:induction false} CutShort(classes: Classes, title: string, i: nat)
    requires Sane(classes) && i < |title| && !Dropped(classes, title[i]) && classes.alnum(title[i])
    requires var b := Dashed(classes, Kept(classes, title[..i])); Room(b) && MAX_RUNES <= |b|
    ensures var b := Dashed(classes, Kept(classes, title[..i]));
      SlugOf(classes, title) ==
        if !Pending(classes, title[..i]) && LastDash(b) >= 0 && ByteLength(b[..LastDash(b)]) > SHORTEST_CUT
        then b[..LastDash(b)] else b
  {
    var full := Dashed(classes, Kept(classes, title));
    var b := Dashed(classes, Kept(classes, title[..i]));
    var next := Dashed(classes, Kept(classes, title[..i + 1]));
    OneRune(classes, title, i);
    PrefixesAgree(classes, title, i + 1);
    assert full[|b|] == next[|b|];
    assert b <= next;
    ShortenedAt(full, b);
  }

  lemma {:induction false} RuneStep(classes: Classes, title: string, i: nat)
    requires Sane(classes) && i < |title|
    ensures var b, c, dash := Dashed(classes, Kept(classes, title[..i])), title[i], Pending(classes, title[..i]);
      && Dashed(classes, Kept(classes, title[..i + 1]))
        == (if Dropped(classes, c) || !classes.alnum(c) then b else Written(b, dash, c))
      && Pending(classes, title[..i + 1]) == if Dropped(classes, c) then dash else !classes.alnum(c)
  {
    OneRune(classes, title, i);
  }

  lemma {:induction false} WrittenInFull(classes: Classes, title: string)
    requires Room(Dashed(classes, Kept(classes, title)))
    ensures SlugOf(classes, title) == Dashed(classes, Kept(classes, title))
  {
    var b := Dashed(classes, Kept(classes, title));
    if |b| >= MAX_RUNES { ShortenedAt(b, b); }
  }

  /** The loop over the title's runes. */
  method SlugWords(classes: Classes, title: string) returns (r: string)
    requires Sane(classes)
    ensures r == SlugOf(classes, title)
  {
    var b, n, dash := "", 0, false;
    for i := 0 to |title|
      invariant b == Dashed(classes, Kept(classes, title[..i]))
      invariant dash <==> Pending(classes, title[..i])
      invariant n == |b| && Room(b)
    {
      var c := title[i];
      RuneStep(classes, title, i);
      if classes.mark(c) {
      } else if c == '\'' || c == '\U{2019}' {
      } else if classes.alnum(c) {
        if n >= MAX_RUNES {
          CutShort(classes, title, i);
          var cut := LastDash(b);
          if cut >= 0 && ByteLength(b[..cut]) > SHORTEST_CUT && !dash { return b[..cut]; }
          return b;
        }
        RoomForOne(b, dash, c);
        if dash && b != "" {
          b := b + "-";
          n := n + 1;
        }
        dash := false;
        b := b + [c];
        n := n + 1;
      } else {
        dash := true;
      }
    }
    assert title[..|title|] == title;
    WrittenInFull(classes, title);
    return b;
  }

  // ------------------------------------------------------ what an address is

  predicate Lettered(classes: Classes, s: string) {
    forall i :: 0 <= i < |s| ==> s[i] == '-' || classes.alnum(s[i])
  }

  predicate Wordless(classes: Classes, s: string) {
    forall i :: 0 <= i < |s| ==> !classes.alnum(s[i])
  }

  lemma {:induction false} DashedIsNeat(classes: Classes, s: string)
    requires Sane(classes)
    ensures Neat(Dashed(classes, s)) && Lettered(classes, Dashed(classes, s))
    ensures Dashed(classes, s) == "" <==> Wordless(classes, s)
    decreases |s|
  {
    if s != "" {
      var front, c := s[..|s| - 1], s[|s| - 1];
      assert s == front + [c];
      DashedIsNeat(classes, front);
      DashedSnoc(classes, front, c);
    }
  }

  lemma NeatPrefix(s: string, k: nat)
    requires Neat(s) && k <= |s| && (k > 0 ==> s[k - 1] != '-')
    ensures Neat(s[..k])
  {
  }

  /** The readable half of an address: at most 61 runes of letters, digits and single inner
      dashes; empty only for a title without a letter or digit. */
  lemma SlugIsNeat(classes: Classes, title: string)
    requires Sane(classes)
    ensures var r := SlugOf(classes, title);
      |r| <= MAX_RUNES + 1 && Neat(r) && Lettered(classes, r)
    ensures SlugOf(classes, title) == "" <==> Wordless(classes, Kept(classes, title))
  {
    var full := Dashed(classes, Kept(classes, title));
    var r := Shortened(full);
    DashedIsNeat(classes, Kept(classes, title));
    ShortenedIsPrefix(full);
    assert r == full[..|r|];
    NeatPrefix(full, |r|);
  }

  /** It is the title's words, whole when they fit; otherwise their beginning, which stops
      inside a word only if its last dash lies in the first twenty bytes. */
  lemma ShortenedIsPrefix(full: string)
    requires Neat(full)
    ensures var r := Shortened(full);
      && r <= full && |r| <= 61 && (r == "" <==> full == "") && (r != "" ==> r[|r| - 1] != '-')
      && (|full| <= 60 ==> r == full)
      && (r != full ==>
            ByteLength(r) > 20 && (full[|r|] == '-' || (|r| >= 60 && ByteLength(r[..LastDash(r) + 1]) <= 21)))
  {
    var b := if |full| <= MAX_RUNES then full else if full[MAX_RUNES - 1] == '-' then full[..MAX_RUNES + 1]
      else full[..MAX_RUNES];
    var i := LastDash(b);
    if i >= 0 {
      assert b[..i + 1][..i] == b[..i];
      assert ByteLength(b[..i + 1]) == ByteLength(b[..i]) + 1;
      assert full[i] == '-' && (i > 0 ==> full[i - 1] != '-');
    }
  }

  // --------------------------------------------------------- the random suffix

  function ArticleSlug(classes: Classes, title: string, suffix: string): string {
    (if SlugOf(classes, title) != "" then SlugOf(classes, title) else "article") + "-" + suffix
  }

  /** The random half of an address; an address of another shape is kept whole. */
  function SlugSuffix(slug: string): string {
    var i := LastDash(slug);
    if i >= 0 && ByteLength(slug[i + 1..]) == SUFFIX_LENGTH then slug[i + 1..] else slug
  }

  /** The suffixes the service draws, and any others that survive a change of title. */
  predicate Drawn(suffix: string) {
    '-' !in suffix && ByteLength(suffix) == SUFFIX_LENGTH
  }

  lemma DashIsLast(words: string, suffix: string)
    requires '-' !in suffix
    ensures LastDash(words + "-" + suffix) == |words|
  {
    var s := words + "-" + suffix;
    assert s[|words|] == '-';
    forall j | |words| < j < |s| ensures s[j] != '-' { assert s[j] == suffix[j - |words| - 1]; }
  }

  /** The suffix of an address is recovered whatever the title, exactly when it has six
      bytes and no dash. */
  lemma SuffixRoundTrip(classes: Classes, title: string, suffix: string)
    ensures SlugSuffix(ArticleSlug(classes, title, suffix)) == suffix <==> '-' !in suffix && ByteLength(suffix) == 6
  {
    var words := if SlugOf(classes, title) != "" then SlugOf(classes, title) else "article";
    var s := words + "-" + suffix;
    if '-' !in suffix {
      DashIsLast(words, suffix);
      assert s[|words| + 1..] == suffix;
    } else {
      var j :| 0 <= j < |suffix| && suffix[j] == '-';
      assert s[|words| + 1 + j] == '-';
      assert LastDash(s) > |words|;
    }
  }
}
