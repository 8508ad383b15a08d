/** The licence-header stamper: a printer of headers, a locator that must find what was printed, and the edits between. */
module LicenseHeaders {
  import opened Helpers

  datatype Style = Line(prefix: string) | Block(open: string, mid: string, close: string)

  datatype Span = Span(start: nat, end: nat)

  const MARKER := "SPDX-License-Identifier:"
  const SCAN := 15
  const NOTICE := "Copyright (c)"
  const HOLDER := "Trustedwear Tech Private Limited"
  const LAST := "http://www.apache.org/licenses/LICENSE-2.0"

  // The parts of the header that the locator does not look at: around the holder's name, the author's line,
  // the terms, and what leads up to the address of the licence.
  datatype Wording = Wording(year: string, site: string, author: string, grant: string, terms: string, lead: string)

  const TAG_LINE := MARKER + " " + "Apache-2.0"

  function NoticeLine(w: Wording): string {
    NOTICE + w.year + HOLDER + w.site
  }

  function LastLine(w: Wording): string {
    w.lead + LAST
  }

  function Header(w: Wording): seq<string> {
    [NoticeLine(w), w.author, TAG_LINE, "", w.grant, w.terms, LastLine(w)]
  }

  // None of these parts looks like one that is tested for, or has to stay on the first line.
  predicate Clear(w: Wording) {
    'S' !in w.year + w.site && 'n' !in w.year + w.site && 'x' !in w.year + w.site &&
    w.site != "" && !Space(w.site[|w.site| - 1]) &&
    'S' !in w.author && '(' !in w.author && ':' !in w.grant && ':' !in w.terms
  }

  // The comment styles of the file types that are stamped.
  predicate Known(style: Style) {
    style == Line("#") || style == Line("//") || style == Line("--") ||
    style == Block("/*", " * ", " */") || style == Block("<!--", "  ", "-->")
  }

  /* ----- Text ----- */

  predicate Space(c: char) {
    c == ' ' || c == '\t' || c == '\n' || c == '\r' || c == '\U{000B}' || c == '\U{000C}'
  }

  predicate Blank(s: string) {
    forall i :: 0 <= i < |s| ==> Space(s[i])
  }

  function RStrip(s: string): string {
    if s != [] && Space(s[|s| - 1]) then RStrip(s[..|s| - 1]) else s
  }

  function LStrip(s: string): string {
    if s != [] && Space(s[0]) then LStrip(s[1..]) else s
  }

  function Strip(s: string): string {
    LStrip(RStrip(s))
  }

  predicate StartsAt(s: string, i: nat, sub: string) {
    i + |sub| <= |s| && s[i..i + |sub|] == sub
  }

  predicate Contains(s: string, sub: string) {
    exists i :: 0 <= i <= |s| && StartsAt(s, i, sub)
  }

  predicate WordChar(c: char) {
    'a' <= c <= 'z' || 'A' <= c <= 'Z' || '0' <= c <= '9' || c == '_' || c == '-' || c == '.'
  }

  predicate TaggedAt(s: string, i: nat) {
    StartsAt(s, i, MARKER) &&
    var rest := LStrip(s[i + |MARKER|..]);
    StartsAt(rest, 0, "Apache-2.0") || StartsAt(rest, 0, "BUSL-1.1") || StartsAt(rest, 0, "LicenseRef-Citra-AI")
  }

  // A tag in one of the licences this repository has used.
  predicate IsOurSpdx(s: string) {
    exists i :: 0 <= i <= |s| && TaggedAt(s, i)
  }

  predicate IsMarked(s: string) {
    Contains(s, MARKER)
  }

  predicate IsOurs(s: string) {
    Contains(s, HOLDER) || Contains(s, "Citra AI (https://github.com/Citra-AI)")
  }

  predicate IsCopyright(s: string) {
    Contains(s, NOTICE)
  }

  predicate IsLast(s: string) {
    Contains(s, LAST)
  }

  // What the locator looks for in a line.
  datatype Tests = Tests(tag: string -> bool, marked: string -> bool, ours: string -> bool, notice: string -> bool, last: string -> bool)

  const OURS := Tests(IsOurSpdx, IsMarked, IsOurs, IsCopyright, IsLast)

  predicate DeclaresAt(s: string, i: nat) {
    (StartsAt(s, i, "coding:") || StartsAt(s, i, "coding=")) &&
    var rest := LStrip(s[i + 7..]);
    rest != [] && WordChar(rest[0])
  }

  // An encoding declaration.
  predicate IsCoding(s: string) {
    StartsAt(s, 0, "#") && exists i :: 1 <= i <= |s| && DeclaresAt(s, i)
  }

  /* ----- Printing ----- */

  function Decorated(prefix: string, text: seq<string>): (r: seq<string>)
    ensures |r| == |text| && forall k :: 0 <= k < |r| ==> r[k] == RStrip(prefix + text[k])
  {
    seq(|text|, k requires 0 <= k < |text| => RStrip(prefix + text[k]))
  }

  function Render(w: Wording, style: Style): seq<string> {
    match style
    case Line(prefix) => Decorated(prefix + " ", Header(w))
    case Block(open, mid, close) => [open] + Decorated(mid, Header(w)) + [close]
  }

  // Where the tag is in the printed header.
  function TagAt(style: Style): nat {
    if style.Line? then 2 else 3
  }

  /* ----- Locating ----- */

  // The first line from lo on, short of hi, that has the property, or hi.
  function First(lines: seq<string>, lo: nat, hi: nat, p: string -> bool): (k: nat)
    requires lo <= hi <= |lines|
    ensures lo <= k <= hi && (k < hi ==> p(lines[k]))
    ensures forall j :: lo <= j < k ==> !p(lines[j])
    decreases hi - lo
  {
    if lo == hi || p(lines[lo]) then lo else First(lines, lo + 1, hi, p)
  }

  // The nearest line up from i that has the copyright notice, or the first line.
  function NoticeUp(lines: seq<string>, i: nat, notice: string -> bool): (k: nat)
    requires i < |lines|
    ensures k <= i && (k > 0 ==> notice(lines[k]))
    ensures forall j :: k < j <= i ==> !notice(lines[j])
  {
    if i == 0 || notice(lines[i]) then i else NoticeUp(lines, i - 1, notice)
  }

  function StartOf(lines: seq<string>, style: Style, i: nat, t: Tests): (start: nat)
    requires i < |lines|
    ensures start <= i
  {
    var notice := NoticeUp(lines, i, t.notice);
    if style.Block? && notice > 0 && Strip(lines[notice - 1]) == Strip(style.open) then notice - 1 else notice
  }

  function EndOf(lines: seq<string>, style: Style, i: nat, t: Tests): (end: nat)
    requires i < |lines|
    ensures i < end <= |lines|
  {
    var far := Min(|lines|, i + 8);
    var found := First(lines, i, far, t.last);
    var last := if found == far then i else found;
    if style.Block? && last + 1 < |lines| && Strip(lines[last + 1]) == Strip(style.close) then last + 2 else last + 1
  }

  // The first tag decides: the header around it, or nothing if it is somebody else's.
  function FindSpan(lines: seq<string>, style: Style, t: Tests): (span: Option<Span>)
    ensures span.Some? ==> span.value.start < span.value.end <= |lines|
  {
    var scan := Min(SCAN, |lines|);
    var i := First(lines, 0, scan, t.tag);
    if i == scan || !Near(lines, Max(0, i - 3), Min(|lines|, i + 3), t.ours) then None
    else Some(Span(StartOf(lines, style, i, t), EndOf(lines, style, i, t)))
  }

  predicate Near(lines: seq<string>, lo: nat, hi: nat, p: string -> bool)
    requires lo <= hi <= |lines|
  {
    exists j :: lo <= j < hi && p(lines[j])
  }

  method HeaderSpan(lines: seq<string>, style: Style, t: Tests) returns (span: Option<Span>)
    ensures span == FindSpan(lines, style, t)
  {
    var scan := Min(SCAN, |lines|);
    for i := 0 to scan
      invariant forall j :: 0 <= j < i ==> !t.tag(lines[j])
    {
      if !t.tag(lines[i]) {
        continue;
      }
      FirstIs(lines, 0, scan, t.tag, i);
      if !Near(lines, Max(0, i - 3), Min(|lines|, i + 3), t.ours) {
        return None;
      }
      var start := StartLine(lines, style, i, t);
      var end := EndLine(lines, style, i, t);
      return Some(Span(start, end));
    }
    FirstIs(lines, 0, scan, t.tag, scan);
    return None;
  }

  method StartLine(lines: seq<string>, style: Style, i: nat, t: Tests) returns (start: nat)
    requires i < |lines|
    ensures start == StartOf(lines, style, i, t)
  {
    start := i;
    while start > 0 && !t.notice(lines[start])
      invariant start <= i && NoticeUp(lines, i, t.notice) == NoticeUp(lines, start, t.notice)
    {
      start := start - 1;
    }
    if style.Block? && start > 0 && Strip(lines[start - 1]) == Strip(style.open) {
      start := start - 1;
    }
  }

  // A header of the old kind ends with its tag.
  method EndLine(lines: seq<string>, style: Style, i: nat, t: Tests) returns (end: nat)
    requires i < |lines|
    ensures end == EndOf(lines, style, i, t)
  {
    var far := Min(|lines|, i + 8);
    var last, j := i, i;
    while j < far && !t.last(lines[j])
      invariant i <= j <= far
      invariant forall k :: i <= k < j ==> !t.last(lines[k])
    {
      j := j + 1;
    }
    FirstIs(lines, i, far, t.last, j);
    if j < far {
      last := j;
    }
    if style.Block? && last + 1 < |lines| && Strip(lines[last + 1]) == Strip(style.close) {
      last := last + 1;
    }
    return last + 1;
  }

  lemma FirstIs(lines: seq<string>, lo: nat, hi: nat, p: string -> bool, k: nat)
    requires lo <= k <= hi <= |lines|
    requires forall j :: lo <= j < k ==> !p(lines[j])
    requires k < hi ==> p(lines[k])
    ensures First(lines, lo, hi, p) == k
  {
    var f := First(lines, lo, hi, p);
    assert !(f < k) && !(k < f);
  }

  /* ----- Where the header goes ----- */

  predicate IsShebang(s: string) {
    StartsAt(s, 0, "#!")
  }

  predicate IsXml(s: string) {
    StartsAt(LStrip(s), 0, "<?xml")
  }

  predicate IsRule(s: string) {
    Strip(s) == "---"
  }

  function Place(lines: seq<string>, markdown: bool): (at: nat)
    ensures at <= |lines|
  {
    if lines == [] then 0
    else if IsShebang(lines[0]) then if |lines| > 1 && IsCoding(lines[1]) then 2 else 1
    else if IsCoding(lines[0]) || IsXml(lines[0]) then 1
    else if markdown && IsRule(lines[0]) then
      var j := First(lines, 1, |lines|, IsRule);
      if j < |lines| then j + 1 else 0
    else 0
  }

  method InsertionPoint(lines: seq<string>, markdown: bool) returns (at: nat)
    ensures at == Place(lines, markdown)
  {
    if |lines| > 0 && IsShebang(lines[0]) {
      at := 1;
      if at < |lines| && IsCoding(lines[at]) {
        at := at + 1;
      }
      return;
    }
    if |lines| > 0 && IsCoding(lines[0]) {
      return 1;
    }
    if |lines| > 0 && IsXml(lines[0]) {
      return 1;
    }
    if markdown && |lines| > 0 && IsRule(lines[0]) {
      for j := 1 to |lines|
        invariant forall k :: 1 <= k < j ==> !IsRule(lines[k])
      {
        if IsRule(lines[j]) {
          FirstIs(lines, 1, |lines|, IsRule, j);
          return j + 1;
        }
      }
      FirstIs(lines, 1, |lines|, IsRule, |lines|);
      return 0;
    }
    return 0;
  }

  /* ----- Stamping ----- */

  // The header goes in at `at`, with a blank line after it unless there is one.
  function InsertAt(lines: seq<string>, at: nat, b: seq<string>): seq<string>
    requires at <= |lines|
  {
    lines[..at] + b + (if at < |lines| && !Blank(lines[at]) then [""] else []) + lines[at..]
  }

  function Stamped(lines: seq<string>, markdown: bool, b: seq<string>): seq<string> {
    InsertAt(lines, Place(lines, markdown), b)
  }

  predicate Marked(lines: seq<string>, marked: string -> bool) {
    Near(lines, 0, Min(SCAN, |lines|), marked)
  }

  predicate Empty(lines: seq<string>) {
    forall j :: 0 <= j < |lines| ==> Blank(lines[j])
  }

  // The lines without a header and, if there is one, the blank line after it.
  function Cut(lines: seq<string>, span: Span): seq<string>
    requires span.start <= span.end <= |lines|
  {
    var end := if span.end < |lines| && Blank(lines[span.end]) then span.end + 1 else span.end;
    lines[..span.start] + lines[end..]
  }

  function StampWith(lines: seq<string>, markdown: bool, style: Style, rewrite: bool, b: seq<string>, t: Tests): seq<string> {
    if Empty(lines) then lines
    else if rewrite && FindSpan(lines, style, t).Some? then Stamped(Cut(lines, FindSpan(lines, style, t).value), markdown, b)
    else if Marked(lines, t.marked) then lines
    else Stamped(lines, markdown, b)
  }

  function Stamp(w: Wording, lines: seq<string>, markdown: bool, style: Style, rewrite: bool): seq<string> {
    StampWith(lines, markdown, style, rewrite, Render(w, style), OURS)
  }

  method StampFile(w: Wording, lines: seq<string>, markdown: bool, style: Style, check: bool, rewrite: bool) returns (needed: bool, out: seq<string>)
    ensures out == if check then lines else Stamp(w, lines, markdown, style, rewrite)
    ensures !check ==> (needed <==> out != lines)
    ensures check ==> (needed <==> !Empty(lines) && (Marked(lines, OURS.marked) ==> rewrite && FindSpan(lines, style, OURS).Some?))
  {
    if Empty(lines) {
      return false, lines;
    }
    var body, removed := lines, false;
    if rewrite {
      var span := HeaderSpan(lines, style, OURS);
      if span.Some? {
        body, removed := Cut(lines, span.value), true;
      }
    }
    if !removed && Marked(lines, OURS.marked) {
      return false, lines;
    }
    if check {
      return true, lines;
    }
    out := InsertHeader(body, markdown, Render(w, style));
    needed := out != lines;
  }

  method InsertHeader(body: seq<string>, markdown: bool, b: seq<string>) returns (out: seq<string>)
    ensures out == Stamped(body, markdown, b)
  {
    var at := InsertionPoint(body, markdown);
    var block := b;
    if at < |body| && !Blank(body[at]) {
      block := block + [""];
    }
    out := body[..at] + block + body[at..];
  }

  /* ----- What is printed can be told apart ----- */

  lemma {:induction false} RStripIsPrefix(s: string)
    ensures RStrip(s) <= s
    ensures s != [] && !Space(s[|s| - 1]) ==> RStrip(s) == s
  {
    if s != [] && Space(s[|s| - 1]) {
      RStripIsPrefix(s[..|s| - 1]);
    }
  }

  lemma {:induction false} LStripIsSuffix(s: string)
    ensures |LStrip(s)| <= |s| && LStrip(s) == s[|s| - |LStrip(s)|..]
    ensures s != [] && !Space(s[0]) ==> LStrip(s) == s
  {
    if s != [] && Space(s[0]) {
      LStripIsSuffix(s[1..]);
    }
  }

  lemma LacksText(s: string, sub: string, c: char)
    ensures Contains(s, sub) && c in sub ==> c in s
  {
    if Contains(s, sub) && c in sub {
      var i :| 0 <= i <= |s| && StartsAt(s, i, sub);
      var k :| 0 <= k < |sub| && sub[k] == c;
      assert s[i..i + |sub|][k] == s[i + k];
    }
  }

  lemma HasText(prefix: string, text: string, i: nat, sub: string)
    requires StartsAt(text, i, sub)
    ensures StartsAt(prefix + text, |prefix| + i, sub)
    ensures Contains(prefix + text, sub)
  {
    var at := |prefix| + i;
    assert (prefix + text)[at..at + |sub|] == text[i..i + |sub|];
    assert StartsAt(prefix + text, at, sub);
  }

  lemma TaggedIsMarked(s: string)
    requires IsOurSpdx(s)
    ensures IsMarked(s)
  {
    var i :| 0 <= i <= |s| && TaggedAt(s, i);
  }

  lemma Joined(a: string, b: string, c: string, d: string)
    ensures StartsAt(a + b + c + d, 0, a) && StartsAt(a + b + c + d, |a + b|, c)
    ensures a + b + c + d == a + (b + c + d)
  {
    assert (a + b + c + d)[|a + b|..|a + b| + |c|] == c;
  }

  lemma NoticeText(w: Wording)
    ensures StartsAt(NoticeLine(w), 0, NOTICE) && StartsAt(NoticeLine(w), |NOTICE + w.year|, HOLDER)
  {
    Joined(NOTICE, w.year, HOLDER, w.site);
  }

  predicate Absent(c: char) {
    c == 'S' || c == 'n' || c == 'x'
  }

  lemma HolderLacks(c: char)
    requires Absent(c)
    ensures c !in NOTICE && c !in HOLDER
  {
  }

  lemma NoticeLacks(w: Wording, c: char)
    requires Clear(w) && Absent(c)
    ensures c !in NoticeLine(w)
  {
    HolderLacks(c);
    assert c !in w.year + w.site;
    AllLack(NOTICE, w.year, HOLDER, w.site, c);
  }

  lemma AllLack(t: string, u: string, v: string, w: string, c: char)
    requires c !in t && c !in u && c !in v && c !in w
    ensures c !in t + u + v + w
  {
  }

  lemma NoticeEnds(w: Wording)
    requires Clear(w)
    ensures NoticeLine(w)[0] == 'C' && !Space(NoticeLine(w)[|NoticeLine(w)| - 1])
  {
    Joined(NOTICE, w.year, HOLDER, w.site);
    assert NoticeLine(w)[|NoticeLine(w)| - 1] == w.site[|w.site| - 1];
  }

  lemma TagText()
    ensures TaggedAt(TAG_LINE, 0)
  {
    TaggedText(MARKER, "Apache-2.0");
  }

  lemma TagLacks()
    ensures '(' !in TAG_LINE && 'w' !in TAG_LINE && !Space(TAG_LINE[|TAG_LINE| - 1])
  {
    assert '(' !in MARKER && 'w' !in MARKER;
  }

  lemma TaggedText(marker: string, value: string)
    requires value != "" && !Space(value[0])
    ensures StartsAt(marker + " " + value, 0, marker)
    ensures StartsAt(LStrip((marker + " " + value)[|marker|..]), 0, value)
  {
    Joined(marker, " ", value, "");
    var rest := (marker + " " + value)[|marker|..];
    assert rest == " " + value && rest[1..] == value;
    LStripIsSuffix(value);
  }

  lemma LastText(w: Wording)
    ensures StartsAt(LastLine(w), |LastLine(w)| - |LAST|, LAST) && !Space(LastLine(w)[|LastLine(w)| - 1])
  {
  }

  predicate NoticeLike(s: string, t: Tests) {
    !t.marked(s) && t.notice(s) && t.ours(s)
  }

  predicate AuthorLike(s: string, t: Tests) {
    !t.marked(s) && !t.notice(s)
  }

  predicate TagLike(s: string, t: Tests) {
    t.tag(s) && !t.notice(s) && !t.last(s)
  }

  // The marks of the header's own lines, from line o on.
  ghost predicate Marks(b: seq<string>, o: nat, t: Tests) {
    && o + 7 <= |b|
    && NoticeLike(b[o], t) && AuthorLike(b[o + 1], t) && TagLike(b[o + 2], t)
    && !t.last(b[o + 3]) && !t.last(b[o + 4]) && !t.last(b[o + 5])
    && t.last(b[o + 6])
  }

  // What the locator needs to know of a header.
  ghost predicate Canonical(b: seq<string>, style: Style, t: Tests) {
    && (forall s :: t.tag(s) ==> t.marked(s))
    && (if style.Line? then |b| == 7 && Marks(b, 0, t)
        else |b| == 9 && Marks(b, 1, t) && b[0] == style.open && b[8] == style.close && !t.marked(b[0]))
  }

  // A header's first line is no line that has to stay first, nor the end of front matter.
  ghost predicate Neutral(s: string) {
    !Blank(s) && !IsShebang(s) && !IsCoding(s) && !IsXml(s) && !IsRule(s)
  }

  // Marks that no comment token contains.
  predicate Bare(prefix: string) {
    'S' !in prefix && 'w' !in prefix && ':' !in prefix && '(' !in prefix
  }

  lemma Stripped(prefix: string, text: string, c: char)
    ensures c !in prefix && c !in text ==> c !in RStrip(prefix + text)
    ensures text != "" && !Space(text[|text| - 1]) ==> RStrip(prefix + text) == prefix + text
  {
    RStripIsPrefix(prefix + text);
  }

  lemma PrintedNotice(w: Wording, prefix: string)
    requires Clear(w) && Bare(prefix)
    ensures var r := RStrip(prefix + NoticeLine(w));
      r == prefix + NoticeLine(w) && !IsMarked(r) && IsCopyright(r) && IsOurs(r)
  {
    var text := NoticeLine(w);
    NoticeText(w);
    NoticeEnds(w);
    NoticeLacks(w, 'S');
    Stripped(prefix, text, 'S');
    LacksText(prefix + text, MARKER, 'S');
    HasText(prefix, text, 0, NOTICE);
    HasText(prefix, text, |NOTICE + w.year|, HOLDER);
  }

  lemma PrintedAuthor(w: Wording, prefix: string)
    requires Clear(w) && Bare(prefix)
    ensures var r := RStrip(prefix + w.author); !IsMarked(r) && !IsCopyright(r)
  {
    Stripped(prefix, w.author, 'S');
    Stripped(prefix, w.author, '(');
    LacksText(RStrip(prefix + w.author), MARKER, 'S');
    LacksText(RStrip(prefix + w.author), NOTICE, '(');
  }

  lemma PrintedTag(prefix: string)
    requires Bare(prefix)
    ensures var r := RStrip(prefix + TAG_LINE); IsOurSpdx(r) && !IsCopyright(r) && !IsLast(r)
  {
    var text := TAG_LINE;
    TagText();
    TagLacks();
    Stripped(prefix, text, '(');
    LacksText(prefix + text, NOTICE, '(');
    LacksText(prefix + text, LAST, 'w');
    TagMoves(prefix, text);
  }

  lemma TagMoves(prefix: string, text: string)
    requires TaggedAt(text, 0)
    ensures IsOurSpdx(prefix + text)
  {
    HasText(prefix, text, 0, MARKER);
    assert (prefix + text)[|prefix| + |MARKER|..] == text[|MARKER|..];
    var at := |prefix| + 0;
    assert TaggedAt(prefix + text, at);
  }

  lemma PrintedGrant(prefix: string, text: string)
    requires Bare(prefix) && ':' !in text
    ensures !IsLast(RStrip(prefix + text))
  {
    Stripped(prefix, text, ':');
    LacksText(RStrip(prefix + text), LAST, ':');
  }

  lemma PrintedLast(w: Wording, prefix: string)
    ensures IsLast(RStrip(prefix + LastLine(w)))
  {
    LastText(w);
    Stripped(prefix, LastLine(w), ':');
    HasText(prefix, LastLine(w), |LastLine(w)| - |LAST|, LAST);
  }

  lemma PrintedMarks(w: Wording, prefix: string)
    requires Clear(w) && Bare(prefix)
    ensures Marks(Decorated(prefix, Header(w)), 0, OURS)
  {
    var d := Decorated(prefix, Header(w));
    PrintedTop(w, prefix);
    PrintedBottom(w, prefix);
    assert d[0] == RStrip(prefix + NoticeLine(w)) && d[1] == RStrip(prefix + w.author) && d[2] == RStrip(prefix + TAG_LINE);
  }

  lemma PrintedTop(w: Wording, prefix: string)
    requires Clear(w) && Bare(prefix)
    ensures NoticeLike(RStrip(prefix + NoticeLine(w)), OURS)
    ensures AuthorLike(RStrip(prefix + w.author), OURS)
    ensures TagLike(RStrip(prefix + TAG_LINE), OURS)
  {
    PrintedNotice(w, prefix);
    PrintedAuthor(w, prefix);
    PrintedTag(prefix);
  }

  lemma PrintedBottom(w: Wording, prefix: string)
    requires Clear(w) && Bare(prefix)
    ensures var d := Decorated(prefix, Header(w)); !IsLast(d[3]) && !IsLast(d[4]) && !IsLast(d[5]) && IsLast(d[6])
  {
    PrintedGrant(prefix, "");
    PrintedGrant(prefix, w.grant);
    PrintedGrant(prefix, w.terms);
    PrintedLast(w, prefix);
  }

  lemma MarksMove(b: seq<string>, o: nat, lines: seq<string>, at: nat, t: Tests)
    requires Marks(b, o, t) && at + |b| <= |lines| && lines[at..at + |b|] == b
    ensures Marks(lines, at + o, t)
  {
    assert forall j :: 0 <= j < |b| ==> lines[at + j] == b[j];
  }

  lemma LineIsCanonical(w: Wording, style: Style)
    requires Clear(w) && Known(style) && style.Line?
    ensures Canonical(Render(w, style), style, OURS)
  {
    TaggedAreMarked();
    PrintedMarks(w, style.prefix + " ");
  }

  lemma BlockIsCanonical(w: Wording, style: Style)
    requires Clear(w) && Known(style) && style.Block?
    ensures Canonical(Render(w, style), style, OURS)
  {
    TaggedAreMarked();
    PrintedMarks(w, style.mid);
    LacksText(style.open, MARKER, 'S');
    Framed(style, Decorated(style.mid, Header(w)), OURS);
  }

  lemma Framed(style: Style, d: seq<string>, t: Tests)
    requires style.Block? && |d| == 7 && Marks(d, 0, t) && !t.marked(style.open)
    requires forall s :: t.tag(s) ==> t.marked(s)
    ensures Canonical([style.open] + d + [style.close], style, t)
  {
    MarksMove(d, 0, [style.open] + d + [style.close], 1, t);
  }

  lemma TaggedAreMarked()
    ensures forall s :: IsOurSpdx(s) ==> IsMarked(s)
  {
    forall s | IsOurSpdx(s) ensures IsMarked(s) {
      TaggedIsMarked(s);
    }
  }

  lemma RenderedIsCanonical(w: Wording, style: Style)
    requires Clear(w) && Known(style)
    ensures Canonical(Render(w, style), style, OURS)
  {
    if style.Line? {
      LineIsCanonical(w, style);
    } else {
      BlockIsCanonical(w, style);
    }
  }

  lemma {:induction false} RStripKeeps(s: string, c: char)
    ensures c in RStrip(s) ==> c in s
    ensures c in s && !Space(c) ==> c in RStrip(s)
  {
    if s != [] && Space(s[|s| - 1]) {
      RStripKeeps(s[..|s| - 1], c);
      assert s == s[..|s| - 1] + [s[|s| - 1]];
    }
  }

  lemma {:induction false} LStripKeeps(s: string, c: char)
    ensures c in LStrip(s) ==> c in s
    ensures c in s && !Space(c) ==> c in LStrip(s)
  {
    if s != [] && Space(s[0]) {
      LStripKeeps(s[1..], c);
      assert s == [s[0]] + s[1..];
    }
  }

  lemma StripKeeps(s: string, c: char)
    ensures c in Strip(s) ==> c in s
    ensures c in s && !Space(c) ==> c in Strip(s)
  {
    RStripKeeps(s, c);
    LStripKeeps(RStrip(s), c);
  }

  lemma NotRule(s: string)
    ensures IsRule(s) ==> '-' in s && !Blank(s)
    ensures forall c :: c in s && !Space(c) && IsRule(s) ==> c == '-'
  {
    StripKeeps(s, '-');
    if IsRule(s) {
      assert Strip(s)[0] == '-';
      forall c | c in s && !Space(c) ensures c == '-' {
        StripKeeps(s, c);
      }
    }
  }

  lemma CodingHasN(s: string)
    ensures IsCoding(s) ==> 'n' in s
  {
    if IsCoding(s) {
      var i :| 1 <= i <= |s| && DeclaresAt(s, i);
      assert s[i..i + 7][4] == s[i + 4];
    }
  }

  lemma XmlHasX(s: string)
    ensures IsXml(s) ==> 'x' in s
  {
    LStripKeeps(s, 'x');
    assert IsXml(s) ==> LStrip(s)[0..5][2] == LStrip(s)[2];
  }

  lemma ShebangHasMark(s: string)
    ensures IsShebang(s) ==> |s| >= 2 && s[1] == '!'
  {
    assert IsShebang(s) ==> s[0..2][1] == s[1];
  }

  lemma LineIsNeutral(prefix: string, text: string)
    requires prefix == "# " || prefix == "// " || prefix == "-- "
    requires 'n' !in text && 'x' !in text && text != "" && text[0] == 'C' && !Space(text[|text| - 1])
    ensures Neutral(RStrip(prefix + text))
  {
    var s := prefix + text;
    Stripped(prefix, text, 'n');
    CodingHasN(s);
    XmlHasX(s);
    ShebangHasMark(s);
    NotRule(s);
    assert s[|prefix|] == 'C' && 'C' in s;
  }

  lemma NoticeIsNeutral(w: Wording, prefix: string)
    requires Clear(w) && (prefix == "# " || prefix == "// " || prefix == "-- ")
    ensures Neutral(RStrip(prefix + NoticeLine(w)))
  {
    NoticeEnds(w);
    NoticeLacks(w, 'n');
    NoticeLacks(w, 'x');
    LineIsNeutral(prefix, NoticeLine(w));
  }

  lemma OpenIsNeutral(open: string)
    requires open == "/*" || open == "<!--"
    ensures Neutral(open)
  {
    CodingHasN(open);
    XmlHasX(open);
    NotRule(open);
    assert !Space(open[1]) && open[1] != '-';
  }

  lemma RenderedIsNeutral(w: Wording, style: Style)
    requires Clear(w) && Known(style)
    ensures Neutral(Render(w, style)[0])
  {
    match style {
      case Line(prefix) => NoticeIsNeutral(w, prefix + " ");
      case Block(open, _, _) => OpenIsNeutral(open);
    }
  }

  /* ----- The printed header is the one that is found ----- */

  lemma NoticeUpIs(lines: seq<string>, i: nat, k: nat, notice: string -> bool)
    requires k <= i < |lines| && notice(lines[k])
    requires forall j :: k < j <= i ==> !notice(lines[j])
    ensures NoticeUp(lines, i, notice) == k
  {
    var n := NoticeUp(lines, i, notice);
    assert !(n < k) && !(k < n);
  }

  lemma TagIsFound(lines: seq<string>, o: nat, t: Tests)
    requires Marks(lines, o, t) && o + 2 < SCAN
    requires forall s :: t.tag(s) ==> t.marked(s)
    requires forall j :: 0 <= j < o ==> !t.marked(lines[j])
    ensures First(lines, 0, Min(SCAN, |lines|), t.tag) == o + 2
    ensures Near(lines, Max(0, o - 1), Min(|lines|, o + 5), t.ours)
    ensures Marked(lines, t.marked)
  {
    FirstIs(lines, 0, Min(SCAN, |lines|), t.tag, o + 2);
  }

  lemma Located(lines: seq<string>, at: nat, style: Style, b: seq<string>, t: Tests)
    requires Canonical(b, style, t) && at + TagAt(style) < SCAN
    requires at + |b| <= |lines| && lines[at..at + |b|] == b
    requires forall j :: 0 <= j < at ==> !t.marked(lines[j])
    ensures FindSpan(lines, style, t) == Some(Span(at, at + |b|)) && Marked(lines, t.marked)
  {
    var o := TagAt(style) - 2;
    MarksMove(b, o, lines, at, t);
    assert style.Block? ==> lines[at] == b[0] && lines[at + 8] == b[8];
    TagIsFound(lines, at + o, t);
    SpanIsBlock(lines, at, style, t);
    SpanAround(lines, style, at + TagAt(style), t);
  }

  lemma SpanAround(lines: seq<string>, style: Style, i: nat, t: Tests)
    requires i < Min(SCAN, |lines|) && First(lines, 0, Min(SCAN, |lines|), t.tag) == i
    requires Near(lines, Max(0, i - 3), Min(|lines|, i + 3), t.ours)
    ensures FindSpan(lines, style, t) == Some(Span(StartOf(lines, style, i, t), EndOf(lines, style, i, t)))
  {
  }

  lemma SpanIsBlock(lines: seq<string>, at: nat, style: Style, t: Tests)
    requires var o := at + TagAt(style) - 2; Marks(lines, o, t)
    requires style.Block? ==> at + 9 <= |lines| && lines[at] == style.open && lines[at + 8] == style.close
    ensures var i := at + TagAt(style);
      StartOf(lines, style, i, t) == at && EndOf(lines, style, i, t) == at + if style.Line? then 7 else 9
  {
    var o := at + TagAt(style) - 2;
    NoticeUpIs(lines, o + 2, o, t.notice);
    FirstIs(lines, o + 2, Min(|lines|, o + 10), t.last, o + 6);
  }

  lemma NothingFound(lines: seq<string>, style: Style, t: Tests)
    requires !Marked(lines, t.marked) && forall s :: t.tag(s) ==> t.marked(s)
    ensures FindSpan(lines, style, t) == None
  {
    var i := First(lines, 0, Min(SCAN, |lines|), t.tag);
  }

  lemma TooFar(lines: seq<string>, at: nat, style: Style, b: seq<string>, t: Tests)
    requires Canonical(b, style, t) && at + TagAt(style) >= SCAN
    requires at + |b| <= |lines| && lines[at..at + |b|] == b
    requires forall j :: 0 <= j < at && j < SCAN ==> !t.marked(lines[j])
    ensures !Marked(lines, t.marked)
  {
    forall j | 0 <= j < SCAN ensures !t.marked(lines[j]) {
      if j >= at {
        assert lines[j] == b[j - at];
      }
    }
  }

  lemma FoundIf(lines: seq<string>, at: nat, style: Style, b: seq<string>, t: Tests)
    requires Canonical(b, style, t) && !Marked(lines, t.marked) && at <= |lines|
    ensures var out := InsertAt(lines, at, b);
      if at + TagAt(style) < SCAN then FindSpan(out, style, t) == Some(Span(at, at + |b|)) && Marked(out, t.marked)
      else FindSpan(out, style, t) == None && !Marked(out, t.marked)
  {
    var out := InsertAt(lines, at, b);
    assert out[at..at + |b|] == b;
    assert forall j :: 0 <= j < at ==> out[j] == lines[j];
    if at + TagAt(style) < SCAN {
      Located(out, at, style, b, t);
    } else {
      TooFar(out, at, style, b, t);
      NothingFound(out, style, t);
    }
  }

  predicate Finds(lines: seq<string>, at: nat, style: Style, b: seq<string>, t: Tests)
    requires at <= |lines|
  {
    FindSpan(InsertAt(lines, at, b), style, t) == Some(Span(at, at + |b|))
  }

  lemma FindsIff(lines: seq<string>, at: nat, style: Style, b: seq<string>, t: Tests)
    requires Canonical(b, style, t) && !Marked(lines, t.marked) && at <= |lines|
    ensures Finds(lines, at, style, b, t) <==> at + TagAt(style) < SCAN
  {
    FoundIf(lines, at, style, b, t);
  }

  lemma Extends(lines: seq<string>, at: nat, b: seq<string>)
    requires at <= |lines|
    ensures |InsertAt(lines, at, b)| >= |lines| + |b|
    ensures !Empty(lines) ==> !Empty(InsertAt(lines, at, b))
  {
    var out := InsertAt(lines, at, b);
    if j :| 0 <= j < |lines| && !Blank(lines[j]) {
      assert if j < at then out[j] == lines[j] else out[|out| - |lines| + j] == lines[j];
    }
  }

  lemma StampsOnce(lines: seq<string>, markdown: bool, style: Style, b: seq<string>, t: Tests)
    requires Canonical(b, style, t)
    ensures var once := StampWith(lines, markdown, style, false, b, t);
      StampWith(once, markdown, style, false, b, t) == once <==>
      Empty(lines) || Marked(lines, t.marked) || Place(lines, markdown) + TagAt(style) < SCAN
  {
    if !Empty(lines) && !Marked(lines, t.marked) {
      FoundIf(lines, Place(lines, markdown), style, b, t);
      var once := Stamped(lines, markdown, b);
      Extends(lines, Place(lines, markdown), b);
      Extends(once, Place(once, markdown), b);
    }
  }

  // Without the line at `at`, the header would go elsewhere only before a line that no header starts with.
  lemma PlaceWithout(lines: seq<string>, markdown: bool)
    requires Place(lines, markdown) < |lines| && Blank(lines[Place(lines, markdown)])
    ensures var at := Place(lines, markdown);
      var rest := lines[..at] + lines[at + 1..];
      Place(rest, markdown) != at ==> at < Place(rest, markdown) && !Neutral(rest[at])
  {
    var at := Place(lines, markdown);
    var rest := lines[..at] + lines[at + 1..];
    if at > 0 {
      assert rest[0] == lines[0];
      assert at > 1 ==> rest[1] == lines[1];
      if !IsShebang(lines[0]) && !IsCoding(lines[0]) && !IsXml(lines[0]) {
        assert forall j :: 0 <= j < at ==> rest[j] == lines[j];
        FirstIs(rest, 1, |rest|, IsRule, at - 1);
      }
    } else {
      NotRule(lines[0]);
    }
  }

  // A blank line after the header survives a rewrite: it is empty, the only one, and holds no line back from the top.
  predicate GapKept(lines: seq<string>, markdown: bool) {
    var at := Place(lines, markdown);
    at < |lines| && Blank(lines[at]) ==>
      lines[at] == "" && at + 1 < |lines| && !Blank(lines[at + 1]) && Place(lines[..at] + lines[at + 1..], markdown) == at
  }

  lemma RewritesNothing(lines: seq<string>, markdown: bool, style: Style, b: seq<string>, t: Tests)
    requires Canonical(b, style, t) && Neutral(b[0]) && !Empty(lines) && !Marked(lines, t.marked)
    ensures var out := Stamped(lines, markdown, b);
      StampWith(out, markdown, style, true, b, t) == out <==>
      Place(lines, markdown) + TagAt(style) < SCAN && GapKept(lines, markdown)
  {
    var at := Place(lines, markdown);
    RewriteCuts(lines, at, markdown, style, b, t);
    if at + TagAt(style) < SCAN && at < |lines| && Blank(lines[at]) {
      var rest := lines[..at] + lines[at + 1..];
      PlaceWithout(lines, markdown);
      GapCase(lines, at, Place(rest, markdown), b);
    }
  }

  // A rewrite takes the header off again and stamps what is left, or adds a second header.
  lemma RewriteCuts(lines: seq<string>, at: nat, markdown: bool, style: Style, b: seq<string>, t: Tests)
    requires Canonical(b, style, t) && !Empty(lines) && !Marked(lines, t.marked) && at <= |lines|
    ensures var out := InsertAt(lines, at, b);
      var again := StampWith(out, markdown, style, true, b, t);
      if at + TagAt(style) >= SCAN then |again| > |out|
      else again == Stamped(if at < |lines| && Blank(lines[at]) then lines[..at] + lines[at + 1..] else lines, markdown, b)
  {
    var out := InsertAt(lines, at, b);
    FoundIf(lines, at, style, b, t);
    Extends(lines, at, b);
    if at + TagAt(style) < SCAN {
      CutInserted(lines, at, b);
    } else {
      Extends(out, Place(out, markdown), b);
    }
  }

  // Cutting undoes stamping, but for a blank line the file had where the header went.
  lemma CutInserted(lines: seq<string>, at: nat, b: seq<string>)
    requires at <= |lines|
    ensures Cut(InsertAt(lines, at, b), Span(at, at + |b|)) ==
      if at < |lines| && Blank(lines[at]) then lines[..at] + lines[at + 1..] else lines
  {
    var out := InsertAt(lines, at, b);
    assert out[..at] == lines[..at];
    if at < |lines| {
      if Blank(lines[at]) {
        assert out[at + |b|] == lines[at];
        assert out[at + |b| + 1..] == lines[at + 1..];
      } else {
        assert out[at + |b|] == "";
        assert out[at + |b| + 1..] == lines[at..];
      }
    }
  }

  // Without the blank line at `at`, the header goes in at `again`.
  lemma GapCase(lines: seq<string>, at: nat, again: nat, b: seq<string>)
    requires at < |lines| && Blank(lines[at]) && b != [] && again < |lines|
    requires var rest := lines[..at] + lines[at + 1..]; again != at ==> at < again && rest[at] != b[0]
    ensures var rest := lines[..at] + lines[at + 1..];
      InsertAt(rest, again, b) == InsertAt(lines, at, b) <==>
      lines[at] == "" && at + 1 < |lines| && !Blank(lines[at + 1]) && again == at
  {
    var rest := lines[..at] + lines[at + 1..];
    var was, now := InsertAt(lines, at, b), InsertAt(rest, again, b);
    assert was[at] == b[0] && was[at + |b|] == lines[at];
    if again != at {
      assert now[at] == rest[at];
    } else {
      assert rest[..at] == lines[..at] && rest[at..] == lines[at + 1..];
      if at < |rest| && !Blank(rest[at]) {
        assert now[at + |b|] == "";
        assert [lines[at]] + lines[at + 1..] == lines[at..];
      } else {
        assert |now| == |was| - 1;
      }
    }
  }

  /* ----- What a stamp leaves alone ----- */

  // Stamping deletes no line and moves none: the header goes in, and a blank line after it if the next line is not blank.
  lemma StampOnlyInserts(w: Wording, lines: seq<string>, markdown: bool, style: Style)
    ensures var (out, at, b) := (Stamp(w, lines, markdown, style, false), Place(lines, markdown), Render(w, style));
            if Empty(lines) || Marked(lines, IsMarked) then out == lines
            else if at < |lines| && !Blank(lines[at]) then out == lines[..at] + b + [""] + lines[at..]
            else out == lines[..at] + b + lines[at..]
  {
    var at, b := Place(lines, markdown), Render(w, style);
    assert lines[..at] + b + [] == lines[..at] + b;
  }

  // A line is blank exactly if nothing is left of it without the blanks at its ends.
  lemma BlankIffStripped(s: string)
    ensures Blank(s) <==> Strip(s) == ""
  {
    if Blank(s) && Strip(s) != "" {
      LStripStarts(RStrip(s));
      assert Strip(s)[0] in Strip(s);
      StripKeeps(s, Strip(s)[0]);
    } else if !Blank(s) {
      var i :| 0 <= i < |s| && !Space(s[i]);
      StripKeeps(s, s[i]);
    }
  }

  lemma {:induction false} LStripStarts(s: string)
    ensures LStrip(s) != "" ==> !Space(LStrip(s)[0])
  {
    if s != [] && Space(s[0]) {
      LStripStarts(s[1..]);
    }
  }

  // A file is left without a header exactly if it has nothing but blank lines, or is marked already.
  lemma StampedUnlessBlank(w: Wording, lines: seq<string>, markdown: bool, style: Style)
    ensures Stamp(w, lines, markdown, style, false) == lines <==>
              (forall j :: 0 <= j < |lines| ==> Strip(lines[j]) == "") ||
              exists j :: 0 <= j < |lines| && j < 15 && Contains(lines[j], "SPDX-License-Identifier:")
  {
    forall j | 0 <= j < |lines|
      ensures Blank(lines[j]) <==> Strip(lines[j]) == ""
    {
      BlankIffStripped(lines[j]);
    }
    StampOnlyInserts(w, lines, markdown, style);
  }

  // What has to stay on top stays there: a shebang and the encoding line under it, an encoding line or an XML
  // declaration, front matter up to the rule that closes it; otherwise the header comes first.
  lemma TopStaysOnTop(lines: seq<string>, markdown: bool, j: nat)
    requires lines != []
    ensures IsShebang(lines[0]) ==> Place(lines, markdown) == if |lines| > 1 && IsCoding(lines[1]) then 2 else 1
    ensures !IsShebang(lines[0]) && (IsCoding(lines[0]) || IsXml(lines[0])) ==> Place(lines, markdown) == 1
    ensures markdown && IsRule(lines[0]) && 0 < j < |lines| && IsRule(lines[j]) && (forall k :: 0 < k < j ==> !IsRule(lines[k])) ==>
              Place(lines, markdown) == j + 1
    ensures !IsShebang(lines[0]) && !IsCoding(lines[0]) && !IsXml(lines[0]) &&
            (!markdown || !IsRule(lines[0]) || forall k :: 0 < k < |lines| ==> !IsRule(lines[k])) ==>
              Place(lines, markdown) == 0
  {
    RuleIsNoneOfThese(lines[0]);
    if 0 < j < |lines| && IsRule(lines[j]) && forall k :: 0 < k < j ==> !IsRule(lines[k]) {
      FirstIs(lines, 1, |lines|, IsRule, j);
    }
  }

  lemma RuleIsNoneOfThese(s: string)
    ensures IsRule(s) ==> !IsShebang(s) && !IsCoding(s) && !IsXml(s)
  {
    if IsRule(s) {
      NotRule(s);
      ShebangHasMark(s);
      CodingHasN(s);
      XmlHasX(s);
      assert !Space('!') && !Space('n') && !Space('x');
    }
  }

  lemma {:induction false} LStripBlank(gap: string, rest: string)
    requires Blank(gap) && rest != [] && !Space(rest[0])
    ensures LStrip(gap + rest) == rest
  {
    if gap == [] {
      assert gap + rest == rest;
    } else {
      LStripBlank(gap[1..], rest);
      assert (gap + rest)[1..] == gap[1..] + rest;
    }
  }

  // Each licence this repository has used is recognised, wherever in the line and however far from the marker.
  lemma OurTagsAreFound(prefix: string, gap: string, value: string, suffix: string)
    requires Blank(gap) && (value == "Apache-2.0" || value == "BUSL-1.1" || value == "LicenseRef-Citra-AI")
    ensures IsOurSpdx(prefix + (MARKER + (gap + (value + suffix))))
  {
    var text := gap + (value + suffix);
    LStripBlank(gap, value + suffix);
    TagFollows(MARKER, text, value, suffix);
    TagMoves(prefix, MARKER + text);
  }

  // And so is each name the holder has gone by.
  lemma OurNamesAreFound(prefix: string, name: string, suffix: string)
    requires name == "Trustedwear Tech Private Limited" || name == "Citra AI (https://github.com/Citra-AI)"
    ensures IsOurs(prefix + (name + suffix))
  {
    NameFollows(name, suffix);
    HasText(prefix, name + suffix, 0, name);
  }

  lemma NameFollows(name: string, suffix: string)
    ensures StartsAt(name + suffix, 0, name)
  {
  }

  lemma TagFollows(marker: string, text: string, value: string, suffix: string)
    ensures StartsAt(marker + text, 0, marker) && (marker + text)[|marker|..] == text
    ensures StartsAt(value + suffix, 0, value)
  {
  }

  /* ----- Headers of the old kind ----- */

  // A header that ends with its tag: the notice on line k, the first tag of the file on line i, the holder's name
  // between them and near the tag, and no address of a licence within reach.
  ghost predicate OldHeader(lines: seq<string>, k: nat, i: nat, t: Tests) {
    && k <= i < |lines| && i < SCAN
    && t.notice(lines[k]) && t.tag(lines[i])
    && (forall j :: 0 <= j < i ==> !t.tag(lines[j])) && (forall j :: k < j <= i ==> !t.notice(lines[j]))
    && Near(lines, Max(k, i - 3), i + 1, t.ours)
    && (forall j :: i <= j < i + 8 && j < |lines| ==> !t.last(lines[j]))
  }

  // In a block comment the tokens stand around it.
  ghost predicate Enclosed(lines: seq<string>, k: nat, i: nat, style: Style) {
    style.Block? ==> 0 < k < |lines| && i + 1 < |lines| && Strip(lines[k - 1]) == Strip(style.open) && Strip(lines[i + 1]) == Strip(style.close)
  }

  function Around(k: nat, i: nat, style: Style): Span
    requires style.Block? ==> k > 0
  {
    if style.Line? then Span(k, i + 1) else Span(k - 1, i + 2)
  }

  // The locator finds exactly this: from the notice, or the token above it, to the tag, or the token below it.
  lemma OldHeaderSpan(lines: seq<string>, k: nat, i: nat, style: Style, t: Tests)
    requires OldHeader(lines, k, i, t) && Enclosed(lines, k, i, style)
    ensures FindSpan(lines, style, t) == Some(Around(k, i, style))
  {
    OldTagIsFound(lines, k, i, t);
    SpanAround(lines, style, i, t);
    OldHeaderStarts(lines, k, i, style, t);
    OldHeaderEnds(lines, i, style, t);
  }

  lemma OldTagIsFound(lines: seq<string>, k: nat, i: nat, t: Tests)
    requires OldHeader(lines, k, i, t)
    ensures First(lines, 0, Min(SCAN, |lines|), t.tag) == i && Near(lines, Max(0, i - 3), Min(|lines|, i + 3), t.ours)
  {
    FirstIs(lines, 0, Min(SCAN, |lines|), t.tag, i);
    var j :| Max(k, i - 3) <= j < i + 1 && t.ours(lines[j]);
  }

  lemma OldHeaderStarts(lines: seq<string>, k: nat, i: nat, style: Style, t: Tests)
    requires OldHeader(lines, k, i, t) && Enclosed(lines, k, i, style)
    ensures StartOf(lines, style, i, t) == Around(k, i, style).start
  {
    NoticeUpIs(lines, i, k, t.notice);
  }

  // The first tag of a file decides: without the holder's name near it, nothing in the file is ours to cut.
  lemma ForeignTagIsLeft(lines: seq<string>, i: nat, style: Style, t: Tests)
    requires i < |lines| && i < SCAN && t.tag(lines[i]) && forall j :: 0 <= j < i ==> !t.tag(lines[j])
    requires forall j :: 0 <= j < |lines| && i - 3 <= j < i + 3 ==> !t.ours(lines[j])
    ensures FindSpan(lines, style, t) == None
  {
    FirstIs(lines, 0, Min(SCAN, |lines|), t.tag, i);
  }

  // Without the last line of a header within reach, it ends with its tag.
  lemma OldHeaderEnds(lines: seq<string>, i: nat, style: Style, t: Tests)
    requires i < |lines| && forall j :: i <= j < i + 8 && j < |lines| ==> !t.last(lines[j])
    ensures EndOf(lines, style, i, t) ==
            if style.Block? && i + 1 < |lines| && Strip(lines[i + 1]) == Strip(style.close) then i + 2 else i + 1
  {
    FirstIs(lines, i, Min(|lines|, i + 8), t.last, Min(|lines|, i + 8));
  }

  // A rewrite takes the old header off, with one blank line after it, and stamps what is left.
  lemma OldHeaderIsReplaced(lines: seq<string>, k: nat, i: nat, markdown: bool, style: Style, b: seq<string>, t: Tests)
    requires OldHeader(lines, k, i, t) && Enclosed(lines, k, i, style) && !Empty(lines)
    ensures var span := Around(k, i, style);
            var rest := lines[span.end..];
            StampWith(lines, markdown, style, true, b, t) ==
            Stamped(lines[..span.start] + if rest != [] && Blank(rest[0]) then rest[1..] else rest, markdown, b)
  {
    OldHeaderSpan(lines, k, i, style, t);
    var span := Around(k, i, style);
    CutIs(lines, span);
  }

  lemma CutIs(lines: seq<string>, span: Span)
    requires span.start <= span.end <= |lines|
    ensures var rest := lines[span.end..];
            Cut(lines, span) == lines[..span.start] + if rest != [] && Blank(rest[0]) then rest[1..] else rest
  {
  }

  /* ----- For the printed header ----- */

  // The locator finds the inserted block, all of it and nothing else, exactly if its tag is near enough to the top.
  lemma HeaderIsFoundIff(w: Wording, lines: seq<string>, markdown: bool, style: Style)
    requires Clear(w) && Known(style) && !Marked(lines, OURS.marked)
    ensures var at := Place(lines, markdown); Finds(lines, at, style, Render(w, style), OURS) <==> at + TagAt(style) < SCAN
  {
    RenderedIsCanonical(w, style);
    FindsIff(lines, Place(lines, markdown), style, Render(w, style), OURS);
  }

  // Stamping twice is stamping once, unless front matter pushes the tag out of sight.
  lemma StampingIsIdempotentIff(w: Wording, lines: seq<string>, markdown: bool, style: Style)
    requires Clear(w) && Known(style)
    ensures var once := Stamp(w, lines, markdown, style, false);
      Stamp(w, once, markdown, style, false) == once <==>
      Empty(lines) || Marked(lines, OURS.marked) || Place(lines, markdown) + TagAt(style) < SCAN
  {
    RenderedIsCanonical(w, style);
    StampsOnce(lines, markdown, style, Render(w, style), OURS);
  }

  // Rewriting a stamped file changes nothing exactly if the tag is in sight and the gap after the header is kept.
  lemma RewritingIsNoopIff(w: Wording, lines: seq<string>, markdown: bool, style: Style)
    requires Clear(w) && Known(style) && !Empty(lines) && !Marked(lines, OURS.marked)
    ensures var out := Stamp(w, lines, markdown, style, false);
      Stamp(w, out, markdown, style, true) == out <==>
      Place(lines, markdown) + TagAt(style) < SCAN && GapKept(lines, markdown)
  {
    RenderedIsCanonical(w, style);
    RenderedIsNeutral(w, style);
    RewritesNothing(lines, markdown, style, Render(w, style), OURS);
  }
}
