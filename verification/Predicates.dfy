/** Comparing partial-index predicates of two databases (`_normalized_predicate`, scripts/migrate_d1_snapshot.py).
    A text is read left to right into marks: the characters that matter, whether each is quoted, and whether a
    space belongs before it. The normal form is those marks written out, without enclosing parentheses. */
module Predicates {
  import opened Basics

  // ---------------------------------------------------------- characters

  /** `str.isspace` for one character. */
  predicate IsSpace(c: char) {
    c == ' ' || '\U{9}' <= c <= '\U{D}' || '\U{1C}' <= c <= '\U{1F}' || c == '\U{85}' || c == '\U{A0}' ||
    c == '\U{1680}' || '\U{2000}' <= c <= '\U{200A}' || c == '\U{2028}' || c == '\U{2029}' || c == '\U{202F}' ||
    c == '\U{205F}' || c == '\U{3000}'
  }

  predicate AllSpace(s: string) { forall i :: 0 <= i < |s| ==> IsSpace(s[i]) }

  function Strip(s: string): string {
    if s != "" && IsSpace(s[0]) then Strip(s[1..])
    else if s != "" && IsSpace(s[|s| - 1]) then Strip(s[..|s| - 1])
    else s
  }

  predicate IsPunctuation(c: char) { c == '(' || c == ')' || c == ',' || c == '=' }

  predicate Opens(c: char) { c == '\'' || c == '"' || c == '`' || c == '[' }

  function Closer(c: char): char { if c == '[' then ']' else c }

  predicate IsCloser(c: char) { c == '\'' || c == '"' || c == '`' || c == ']' }

  function Lower(c: char): char { if 'A' <= c <= 'Z' then (c as int + 32) as char else c }

  predicate StartsComment(first: char, second: char) {
    (first == '-' && second == '-') || (first == '/' && second == '*')
  }

  // -------------------------------------------------------------- reading

  /** Between quotes, having just read `prev` (a space at the start); inside a quote; or just after what closed
      it, unless the closing character comes again. */
  datatype Mode = Bare(prev: char) | Inside(close: char) | Closed(close: char)

  datatype Mark = Mark(c: char, quoted: bool, spaced: bool)

  datatype Reading = Reading(mode: Mode, marks: seq<Mark>, comment: bool)

  const START := Reading(Bare(' '), [], false)

  predicate EndsInPunctuation(marks: seq<Mark>) { marks != [] && IsPunctuation(marks[|marks| - 1].c) }

  /** A space belongs before `c` if white space came before it and neither neighbour is punctuation. */
  predicate Spaced(r: Reading, c: char) {
    r.mode == Bare(' ') && r.marks != [] && !EndsInPunctuation(r.marks) && !IsPunctuation(c)
  }

  function Read(r: Reading, c: char): Reading {
    if r.mode.Inside? then
      Reading(if c == r.mode.close then Closed(c) else r.mode, r.marks + [Mark(c, true, false)], r.comment)
    else if r.mode == Closed(c) then Reading(Inside(c), r.marks + [Mark(c, true, false)], r.comment)
    else if IsSpace(c) then r.(mode := Bare(' '))
    else if Opens(c) then Reading(Inside(Closer(c)), r.marks + [Mark(c, true, Spaced(r, c))], r.comment)
    else
      Reading(Bare(Lower(c)), r.marks + [Mark(Lower(c), false, Spaced(r, c))],
              r.comment || (r.mode.Bare? && StartsComment(r.mode.prev, c)))
  }

  function ReadAll(r: Reading, s: string): Reading {
    if s == "" then r else Read(ReadAll(r, s[..|s| - 1]), s[|s| - 1])
  }

  function Marks(s: string): seq<Mark> { ReadAll(START, s).marks }

  function Write(marks: seq<Mark>): string {
    if marks == [] then ""
    else
      var last := marks[|marks| - 1];
      Write(marks[..|marks| - 1]) + (if last.spaced then [' ', last.c] else [last.c])
  }

  function Squeezed(s: string): string { Write(Marks(s)) }

  /** No comment outside quotes, and every quote closed. */
  predicate Readable(s: string) { !ReadAll(START, s).comment && !ReadAll(START, s).mode.Inside? }

  // ---------------------------------------------------------- parentheses

  function Turn(m: Mark): int { if m.quoted then 0 else if m.c == '(' then 1 else if m.c == ')' then -1 else 0 }

  function Depth(marks: seq<Mark>): int {
    if marks == [] then 0 else Depth(marks[..|marks| - 1]) + Turn(marks[|marks| - 1])
  }

  /** One pair of parentheses around everything. */
  predicate Encloses(v: string) {
    var m := Marks(v);
    v != "" && v[0] == '(' && v[|v| - 1] == ')' && Depth(m) == 0 && forall k :: 0 < k < |m| ==> Depth(m[..k]) > 0
  }

  predicate Balanced(s: string) {
    var m := Marks(s);
    Depth(m) == 0 && forall k :: 0 <= k < |m| ==> Depth(m[..k]) >= 0
  }

  lemma StripIsShorter(s: string)
    ensures |Strip(s)| <= |s|
  {
  }

  lemma EnclosingIsTwo(v: string)
    requires Encloses(v)
    ensures |v| >= 2
  {
  }

  function Unwrapped(v: string): string
    decreases |v|
  {
    if Encloses(v) then
      EnclosingIsTwo(v);
      StripIsShorter(v[1..|v| - 1]);
      Unwrapped(Strip(v[1..|v| - 1]))
    else v
  }

  /** The normal form: a text that cannot be read is only stripped. */
  function Normalised(predicateText: string): string {
    var v := Strip(predicateText);
    if Readable(v) then Unwrapped(Squeezed(v)) else v
  }

  // ------------------------------------------------------------- reading on

  lemma {:induction false} ReadOn(r: Reading, a: string, b: string)
    ensures ReadAll(r, a + b) == ReadAll(ReadAll(r, a), b)
  {
    if b == "" {
      assert a + b == a;
    } else {
      assert (a + b)[..|a + b| - 1] == a + b[..|b| - 1];
      ReadOn(r, a, b[..|b| - 1]);
    }
  }

  lemma ReadOne(r: Reading, c: char)
    ensures ReadAll(r, [c]) == Read(r, c)
  {
    assert ReadAll(r, "") == r;
  }

  lemma ReadNext(r: Reading, s: string, c: char)
    ensures ReadAll(r, s + [c]) == Read(ReadAll(r, s), c)
  {
    assert (s + [c])[..|s|] == s;
  }

  lemma {:induction false} CommentStays(r: Reading, s: string)
    requires r.comment
    ensures ReadAll(r, s).comment
  {
    if s != "" { CommentStays(r, s[..|s| - 1]); }
  }

  lemma {:induction false} MarksGrow(r: Reading, s: string)
    ensures r.marks <= ReadAll(r, s).marks
  {
    if s != "" { MarksGrow(r, s[..|s| - 1]); }
  }

  /** What every reading from the start looks like. */
  predicate Sensible(r: Reading) {
    && (r.marks == [] ==> r.mode == Bare(' '))
    && (r.marks != [] ==> !r.marks[0].spaced && !IsSpace(r.marks[0].c))
    && (!r.mode.Inside? && r.marks != [] ==> !IsSpace(r.marks[|r.marks| - 1].c))
    && match r.mode
       case Bare(prev) => prev != ' ' ==>
         !IsSpace(prev) && r.marks != [] && r.marks[|r.marks| - 1].c == prev && !r.marks[|r.marks| - 1].quoted
       case Inside(close) => IsCloser(close)
       case Closed(close) => IsCloser(close) && r.marks[|r.marks| - 1].c == close
  }

  lemma {:induction false} AlwaysSensible(s: string)
    ensures Sensible(ReadAll(START, s))
  {
    if s != "" { AlwaysSensible(s[..|s| - 1]); }
  }

  // ------------------------------------------------ the normal form is stable

  /** Reading the text that was written so far, instead of the original, leads to the same place: at most a
      pending space is missing. */
  predicate Follows(r: Reading, w: Reading) {
    && w.marks == r.marks && (w.comment ==> r.comment)
    && (w.mode == r.mode || (r.mode == Bare(' ') && !w.mode.Inside?))
  }

  function Piece(m: Mark): string { if m.spaced then [' ', m.c] else [m.c] }

  lemma WriteOne(marks: seq<Mark>, m: Mark)
    ensures Write(marks + [m]) == Write(marks) + Piece(m)
  {
    assert (marks + [m])[..|marks|] == marks;
  }

  lemma ReadPiece(w: Reading, m: Mark)
    ensures ReadAll(w, Piece(m)) == if m.spaced then Read(Read(w, ' '), m.c) else Read(w, m.c)
  {
    ReadOne(w, if m.spaced then ' ' else m.c);
    if m.spaced {
      assert Piece(m)[..1] == [' '];
      ReadOne(w, ' ');
    }
  }

  /** Where the two readings agree in mode, the next character is written without a gap or is no mark. */
  lemma FollowEqual(r: Reading, w: Reading, c: char)
    requires Sensible(r) && Follows(r, w) && w.mode == r.mode && !Spaced(r, c)
    ensures Follows(Read(r, c), Read(w, c))
  {
  }

  lemma FollowPending(r: Reading, w: Reading, c: char)
    requires Sensible(r) && Sensible(w) && Follows(r, w) && r.mode == Bare(' ') && !IsSpace(c) && !Spaced(r, c)
    ensures Follows(Read(r, c), Read(w, c))
  {
    assert w.mode != Closed(c);
  }

  lemma FollowSpaced(r: Reading, w: Reading, c: char)
    requires Sensible(w) && Follows(r, w) && !IsSpace(c) && Spaced(r, c)
    ensures Follows(Read(r, c), Read(Read(w, ' '), c))
  {
    assert Read(w, ' ') == w.(mode := Bare(' '));
  }

  /** A character that leaves no mark changes nothing in the text. */
  lemma FollowNone(r: Reading, w: Reading, c: char)
    requires Sensible(r) && Sensible(w) && Follows(r, w) && Read(r, c).marks == r.marks
    ensures Follows(Read(r, c), w)
  {
  }

  lemma FollowOne(r: Reading, w: Reading, c: char)
    requires Sensible(r) && Sensible(w) && Follows(r, w)
    ensures var n := Read(r, c);
      if n.marks == r.marks then Follows(n, w)
      else Follows(n, ReadAll(w, Piece(n.marks[|n.marks| - 1])))
  {
    var n := Read(r, c);
    if n.marks == r.marks {
      FollowNone(r, w, c);
    } else {
      FollowMark(r, w, c);
    }
  }

  lemma FollowMark(r: Reading, w: Reading, c: char)
    requires Sensible(r) && Sensible(w) && Follows(r, w) && Read(r, c).marks != r.marks
    ensures var n := Read(r, c); Follows(n, ReadAll(w, Piece(n.marks[|n.marks| - 1])))
  {
    var m := NextMark(r, c);
    ReadPiece(w, m);
    if m.spaced {
      ReadLower(Read(w, ' '), c);
      FollowSpaced(r, w, c);
    } else {
      ReadLower(w, c);
      if w.mode == r.mode { FollowEqual(r, w, c); } else { FollowPending(r, w, c); }
    }
  }

  /** The mark a character leaves. */
  function NextMark(r: Reading, c: char): (m: Mark)
    requires Read(r, c).marks != r.marks
    ensures Read(r, c).marks == r.marks + [m] && (m.spaced ==> Spaced(r, c) && !IsSpace(c))
    ensures !m.spaced ==> r.mode.Inside? || r.mode == Closed(c) || (!Spaced(r, c) && !IsSpace(c))
    ensures m.c == c || (m.c == Lower(c) && !r.mode.Inside?)
  {
    if r.mode.Inside? || r.mode == Closed(c) then Mark(c, true, false)
    else if Opens(c) then Mark(c, true, Spaced(r, c))
    else Mark(Lower(c), false, Spaced(r, c))
  }

  /** Between quotes letter case makes no difference. */
  lemma ReadLower(w: Reading, c: char)
    requires w.mode.Closed? ==> IsCloser(w.mode.close)
    ensures !w.mode.Inside? ==> Read(w, Lower(c)) == Read(w, c)
  {
  }

  /** One more character of the original is none or one more piece of the text. */
  lemma WriteGrows(r: Reading, c: char)
    ensures var n := Read(r, c);
      Write(n.marks) == if n.marks == r.marks then Write(r.marks) else Write(r.marks) + Piece(n.marks[|n.marks| - 1])
  {
    var n := Read(r, c);
    if n.marks != r.marks {
      var m := n.marks[|n.marks| - 1];
      assert n.marks == r.marks + [m];
      WriteOne(r.marks, m);
    }
  }

  lemma {:induction false} WrittenFollows(s: string)
    ensures Follows(ReadAll(START, s), ReadAll(START, Squeezed(s)))
  {
    if s != "" {
      var s', c := s[..|s| - 1], s[|s| - 1];
      assert s == s' + [c];
      WrittenFollows(s');
      AlwaysSensible(s');
      AlwaysSensible(Squeezed(s'));
      var r := ReadAll(START, s');
      FollowOne(r, ReadAll(START, Squeezed(s')), c);
      WriteGrows(r, c);
      var n := Read(r, c);
      if n.marks != r.marks { ReadOn(START, Squeezed(s'), Piece(n.marks[|n.marks| - 1])); }
    }
  }

  lemma {:induction false} WriteEnds(marks: seq<Mark>)
    requires marks != []
    ensures Write(marks) != "" && Write(marks)[|Write(marks)| - 1] == marks[|marks| - 1].c
    ensures !marks[0].spaced ==> Write(marks)[0] == marks[0].c
  {
    if |marks| > 1 {
      assert marks[..|marks| - 1][0] == marks[0];
      WriteEnds(marks[..|marks| - 1]);
    }
  }

  /** A text the reader writes itself: reading and writing it again changes nothing. */
  predicate Tidy(v: string) { Readable(v) && Squeezed(v) == v && Strip(v) == v }

  /** Two readable texts are squeezed to the same text exactly when they have the same marks, so quoted text is
      kept character for character and only letter case and white space between quotes can differ. */
  lemma SqueezedIsCanonical(a: string, b: string)
    ensures Squeezed(a) == Squeezed(b) <==> Marks(a) == Marks(b)
    ensures Readable(a) ==> Tidy(Squeezed(a)) && Marks(Squeezed(a)) == Marks(a)
  {
    WrittenFollows(a);
    WrittenFollows(b);
    AlwaysSensible(a);
    if Marks(a) != [] { WriteEnds(Marks(a)); }
  }

  // ------------------------------------------------------------- white space

  lemma {:induction false} ReadSpaces(r: Reading, w: string)
    requires Sensible(r) && !r.mode.Inside? && AllSpace(w) && w != ""
    ensures ReadAll(r, w) == r.(mode := Bare(' '))
  {
    if |w| == 1 {
      assert w == [w[0]];
      ReadOne(r, w[0]);
    } else {
      ReadSpaces(r, w[..|w| - 1]);
    }
  }

  lemma {:induction false} StripKeeps(s: string)
    ensures Readable(Strip(s)) == Readable(s)
    ensures !ReadAll(START, s).mode.Inside? ==> Marks(Strip(s)) == Marks(s)
    decreases |s|
  {
    if s != "" && IsSpace(s[0]) {
      assert s == [s[0]] + s[1..];
      ReadOn(START, [s[0]], s[1..]);
      ReadOne(START, s[0]);
      StripKeeps(s[1..]);
    } else if s != "" && IsSpace(s[|s| - 1]) {
      AlwaysSensible(s[..|s| - 1]);
      StripKeeps(s[..|s| - 1]);
    }
  }

  lemma NormalisedIs(s: string)
    requires Readable(s)
    ensures Normalised(s) == Unwrapped(Squeezed(s))
  {
    StripKeeps(s);
  }

  /** Where white space means nothing: at either end, and next to punctuation. */
  predicate Needless(a: string, b: string) {
    || Marks(a) == [] || Marks(a)[|Marks(a)| - 1].c in {'(', ')', ',', '='}
    || b == "" || b[0] in {'(', ')', ',', '='}
  }

  /** A pending space does not matter to what is read next. */
  lemma PendingIrrelevant(r: Reading, c: char)
    requires Sensible(r) && !r.mode.Inside? && (r.marks == [] || EndsInPunctuation(r.marks) || IsPunctuation(c))
    ensures Read(r.(mode := Bare(' ')), c) == Read(r, c)
  {
  }

  lemma ReadFirst(r: Reading, b: string)
    requires b != ""
    ensures ReadAll(r, b) == ReadAll(Read(r, b[0]), b[1..])
  {
    assert b == [b[0]] + b[1..];
    ReadOn(r, [b[0]], b[1..]);
    ReadOne(r, b[0]);
  }

  lemma PendingThrough(r: Reading, b: string)
    requires Sensible(r) && !r.mode.Inside?
    requires r.marks == [] || EndsInPunctuation(r.marks) || b == "" || IsPunctuation(b[0])
    ensures var p, q := ReadAll(r.(mode := Bare(' ')), b), ReadAll(r, b);
      p.marks == q.marks && p.comment == q.comment && p.mode.Inside? == q.mode.Inside?
  {
    if b != "" {
      PendingIrrelevant(r, b[0]);
      ReadFirst(r, b);
      ReadFirst(r.(mode := Bare(' ')), b);
    }
  }

  lemma GapIrrelevant(a: string, w: string, b: string)
    requires !ReadAll(START, a).mode.Inside? && AllSpace(w) && Needless(a, b)
    ensures Marks(a + w + b) == Marks(a + b) && Readable(a + w + b) == Readable(a + b)
  {
    if w == "" {
      assert a + w == a;
    } else {
      var r := ReadAll(START, a);
      AlwaysSensible(a);
      ReadOn(START, a, w);
      ReadSpaces(r, w);
      ReadOn(START, a + w, b);
      ReadOn(START, a, b);
      PendingThrough(r, b);
    }
  }

  /** White space next to punctuation outside quotes, or at either end, is ignored. */
  lemma WhiteSpaceIgnored(a: string, w: string, b: string)
    requires !ReadAll(START, a).mode.Inside? && AllSpace(w) && Needless(a, b) && Readable(a + b)
    ensures Normalised(a + w + b) == Normalised(a + b)
  {
    GapIrrelevant(a, w, b);
    NormalisedIs(a + w + b);
    NormalisedIs(a + b);
  }

  /** Anywhere else outside quotes, one run of white space is as good as another. */
  lemma WhiteSpaceAlike(a: string, w: string, x: string, b: string)
    requires !ReadAll(START, a).mode.Inside? && AllSpace(w) && w != "" && AllSpace(x) && x != ""
    requires Readable(a + w + b)
    ensures Normalised(a + x + b) == Normalised(a + w + b)
  {
    AlwaysSensible(a);
    ReadOn(START, a, w);
    ReadOn(START, a, x);
    ReadSpaces(ReadAll(START, a), w);
    ReadSpaces(ReadAll(START, a), x);
    ReadOn(START, a + w, b);
    ReadOn(START, a + x, b);
    NormalisedIs(a + w + b);
    NormalisedIs(a + x + b);
  }

  /** Anywhere else a gap counts: with it and without it are two different texts. */
  lemma GapCounts(a: string, b: string)
    requires !ReadAll(START, a).mode.Inside? && ReadAll(START, a).mode != Bare(' ')
    requires !Needless(a, b) && !IsSpace(b[0])
    ensures Squeezed(a + " " + b) != Squeezed(a + b)
  {
    GapTells(a, b[0], b[1..]);
    TakeFirst(a + " ", b);
    TakeFirst(a, b);
  }

  lemma TakeFirst(a: string, b: string)
    requires b != ""
    ensures a + b == a + [b[0]] + b[1..]
  {
  }

  lemma GapTells(a: string, c: char, rest: string)
    requires !ReadAll(START, a).mode.Inside? && ReadAll(START, a).mode != Bare(' ') && Marks(a) != []
    requires !EndsInPunctuation(Marks(a)) && !IsPunctuation(c) && !IsSpace(c)
    ensures Squeezed(a + " " + [c] + rest) != Squeezed(a + [c] + rest)
  {
    ReadNext(START, a, ' ');
    AlwaysSensible(a);
    GapIsMarked(ReadAll(START, a), c);
    MarkTells(a + " ", a, c, rest, |Marks(a)|);
  }

  /** Two texts that read one character differently are two texts. */
  lemma MarkTells(a: string, b: string, c: char, rest: string, n: nat)
    requires var x, y := Read(ReadAll(START, a), c).marks, Read(ReadAll(START, b), c).marks;
      n < |x| && n < |y| && x[n] != y[n]
    ensures Squeezed(a + [c] + rest) != Squeezed(b + [c] + rest)
  {
    ReadThrough(a, c, rest);
    ReadThrough(b, c, rest);
    SqueezedIsCanonical(a + [c] + rest, b + [c] + rest);
    PrefixesTell(Read(ReadAll(START, a), c).marks, Read(ReadAll(START, b), c).marks, Marks(a + [c] + rest),
                 Marks(b + [c] + rest), n);
  }

  lemma GapIsMarked(r: Reading, c: char)
    requires Sensible(r) && !r.mode.Inside? && r.mode != Bare(' ') && !IsSpace(c) && r.marks != []
    requires !EndsInPunctuation(r.marks) && !IsPunctuation(c)
    ensures |Read(Read(r, ' '), c).marks| > |r.marks| && |Read(r, c).marks| > |r.marks|
    ensures Read(Read(r, ' '), c).marks[|r.marks|].spaced && !Read(r, c).marks[|r.marks|].spaced
  {
    assert Read(r, ' ') == r.(mode := Bare(' '));
  }

  /** The same character, or the two cases of one letter. */
  predicate SameLetter(c: char, d: char) {
    c == d || ('A' <= c <= 'Z' && d as int == c as int + 32) || ('A' <= d <= 'Z' && c as int == d as int + 32)
  }

  lemma LowerTells(c: char, d: char)
    ensures Lower(c) == Lower(d) <==> SameLetter(c, d)
  {
  }

  /** A character between quotes that neither opens one nor is white space. */
  predicate Plain(r: Reading, c: char) { !r.mode.Inside? && r.mode != Closed(c) && !IsSpace(c) && !Opens(c) }

  lemma ReadPlain(r: Reading, c: char, d: char)
    requires Plain(r, c) && Plain(r, d)
    ensures SameLetter(c, d) ==> Read(r, c) == Read(r, d)
    ensures |Read(r, c).marks| == |Read(r, d).marks| == |r.marks| + 1
    ensures Read(r, c).marks[|r.marks|].c == Read(r, d).marks[|r.marks|].c <==> SameLetter(c, d)
  {
    LowerTells(c, d);
  }

  lemma ReadThrough(a: string, c: char, b: string)
    ensures ReadAll(START, a + [c] + b) == ReadAll(Read(ReadAll(START, a), c), b)
    ensures Read(ReadAll(START, a), c).marks <= Marks(a + [c] + b)
  {
    ReadOn(START, a + [c], b);
    ReadNext(START, a, c);
    MarksGrow(Read(ReadAll(START, a), c), b);
  }

  lemma PrefixesTell(x: seq<Mark>, y: seq<Mark>, a: seq<Mark>, b: seq<Mark>, n: nat)
    requires x <= a && y <= b && n < |x| && n < |y| && x[n] != y[n]
    ensures a != b
  {
    assert a[n] == x[n] && b[n] == y[n];
  }

  /** Between quotes one character is as good as another exactly if they are one letter in two cases. */
  lemma OnlyCaseIsIgnored(a: string, c: char, d: char, b: string)
    requires Plain(ReadAll(START, a), c) && Plain(ReadAll(START, a), d)
    ensures Squeezed(a + [c] + b) == Squeezed(a + [d] + b) <==> SameLetter(c, d)
    ensures SameLetter(c, d) && Readable(a + [c] + b) ==> Normalised(a + [c] + b) == Normalised(a + [d] + b)
  {
    var r := ReadAll(START, a);
    ReadPlain(r, c, d);
    ReadThrough(a, c, b);
    ReadThrough(a, d, b);
    SqueezedIsCanonical(a + [c] + b, a + [d] + b);
    if !SameLetter(c, d) {
      PrefixesTell(Read(r, c).marks, Read(r, d).marks, Marks(a + [c] + b), Marks(a + [d] + b), |r.marks|);
    }
    if SameLetter(c, d) && Readable(a + [c] + b) {
      NormalisedIs(a + [c] + b);
      NormalisedIs(a + [d] + b);
    }
  }

  /** Inside quotes every character counts. */
  lemma QuotedCharactersCount(a: string, c: char, d: char, b: string)
    requires ReadAll(START, a).mode.Inside? && c != d
    ensures Squeezed(a + [c] + b) != Squeezed(a + [d] + b)
  {
    var r := ReadAll(START, a);
    ReadThrough(a, c, b);
    ReadThrough(a, d, b);
    SqueezedIsCanonical(a + [c] + b, a + [d] + b);
    PrefixesTell(Read(r, c).marks, Read(r, d).marks, Marks(a + [c] + b), Marks(a + [d] + b), |r.marks|);
  }

  // -------------------------------------------------- enclosing parentheses

  const OPEN := Mark('(', false, false)
  const CLOSE := Mark(')', false, false)

  /** Reading behind an opening parenthesis. */
  predicate Behind(r: Reading, p: Reading) {
    && p.marks == [OPEN] + r.marks && p.comment == r.comment
    && (p.mode == r.mode || (r.marks == [] && p.mode == Bare('(')))
  }

  lemma BehindNext(r: Reading, p: Reading, c: char)
    requires Sensible(r) && Behind(r, p)
    ensures Behind(Read(r, c), Read(p, c))
  {
    if r.marks == [] {
      assert p.marks == [OPEN];
    } else {
      assert p.marks[|p.marks| - 1] == r.marks[|r.marks| - 1];
    }
  }

  lemma {:induction false} ReadBehind(s: string)
    ensures Behind(ReadAll(START, s), ReadAll(START, "(" + s))
  {
    if s == "" {
      assert "(" + s == ['('];
      ReadOne(START, '(');
    } else {
      var s' := s[..|s| - 1];
      ReadBehind(s');
      AlwaysSensible(s');
      BehindNext(ReadAll(START, s'), ReadAll(START, "(" + s'), s[|s| - 1]);
      ReadNext(START, "(" + s', s[|s| - 1]);
      assert "(" + s == "(" + s' + [s[|s| - 1]];
    }
  }

  function Wrapped(s: string): string { "(" + s + ")" }

  lemma CloseBehind(r: Reading, p: Reading)
    requires Sensible(r) && Behind(r, p)
    ensures var n := Read(p, ')');
      n.comment == r.comment && n.mode.Inside? == r.mode.Inside? &&
      (!r.mode.Inside? ==> n.marks == [OPEN] + r.marks + [CLOSE])
  {
  }

  lemma ReadWrapped(s: string)
    ensures Readable(Wrapped(s)) == Readable(s)
    ensures !ReadAll(START, s).mode.Inside? ==> Marks(Wrapped(s)) == [OPEN] + Marks(s) + [CLOSE]
  {
    ReadBehind(s);
    AlwaysSensible(s);
    CloseBehind(ReadAll(START, s), ReadAll(START, "(" + s));
    ReadNext(START, "(" + s, ')');
  }

  lemma {:induction false} DepthBehind(marks: seq<Mark>)
    ensures Depth([OPEN] + marks) == 1 + Depth(marks)
  {
    if marks == [] {
      assert [OPEN][..0] == [];
    } else {
      assert ([OPEN] + marks)[..|marks|] == [OPEN] + marks[..|marks| - 1];
      DepthBehind(marks[..|marks| - 1]);
    }
  }

  lemma {:induction false} WriteBehind(marks: seq<Mark>)
    ensures Write([OPEN] + marks) == "(" + Write(marks)
  {
    if marks == [] {
      assert [OPEN][..0] == [];
    } else {
      assert ([OPEN] + marks)[..|marks|] == [OPEN] + marks[..|marks| - 1];
      WriteBehind(marks[..|marks| - 1]);
    }
  }

  lemma SqueezeWrapped(s: string)
    requires !ReadAll(START, s).mode.Inside?
    ensures Squeezed(Wrapped(s)) == Wrapped(Squeezed(s))
  {
    ReadWrapped(s);
    WriteBehind(Marks(s));
    WriteOne([OPEN] + Marks(s), CLOSE);
  }

  lemma WrappedEncloses(q: string)
    requires !ReadAll(START, q).mode.Inside?
    ensures Encloses(Wrapped(q)) <==> Balanced(q)
  {
    ReadWrapped(q);
    var m := Marks(q);
    var all := [OPEN] + m + [CLOSE];
    assert all[..|m| + 1] == [OPEN] + m;
    DepthBehind(m);
    forall k | 0 <= k <= |m| ensures Depth(all[..k + 1]) == 1 + Depth(m[..k]) {
      assert all[..k + 1] == [OPEN] + m[..k];
      DepthBehind(m[..k]);
    }
    assert Depth(all) == Depth(m);
    if Encloses(Wrapped(q)) {
      forall k | 0 <= k < |m| ensures Depth(m[..k]) >= 0 { assert Depth(all[..k + 1]) > 0; }
    }
    if Balanced(q) {
      assert m[..|m|] == m;
      forall k | 0 < k < |all| ensures Depth(all[..k]) > 0 { assert Depth(m[..k - 1]) >= 0; }
    }
  }

  lemma {:induction false} UnwrappedShrinks(v: string)
    ensures |Unwrapped(v)| <= |v|
    decreases |v|
  {
    if Encloses(v) {
      EnclosingIsTwo(v);
      StripIsShorter(v[1..|v| - 1]);
      UnwrappedShrinks(Strip(v[1..|v| - 1]));
    }
  }

  lemma UnwrapWrapped(q: string)
    requires Tidy(q)
    ensures Unwrapped(Wrapped(q)) == if Balanced(q) then Unwrapped(q) else Wrapped(q)
  {
    WrappedEncloses(q);
    assert Wrapped(q)[1..|Wrapped(q)| - 1] == q;
  }

  /** One more pair of parentheses changes nothing exactly when the text is readable and its own parentheses
      are balanced. */
  lemma WrappingIgnored(s: string)
    ensures Normalised(Wrapped(s)) == Normalised(s) <==> Readable(s) && Balanced(s)
  {
    ReadWrapped(s);
    if Readable(s) {
      var q := Squeezed(s);
      SqueezedIsCanonical(s, s);
      NormalisedIs(s);
      NormalisedIs(Wrapped(s));
      SqueezeWrapped(s);
      UnwrapWrapped(q);
      UnwrappedShrinks(q);
    } else {
      StripIsShorter(s);
      StripKeeps(s);
      assert Strip(Wrapped(s)) == Wrapped(s);
    }
  }

  // ------------------------------------------------------------- idempotence

  lemma WrappedTidy(inner: string)
    requires Tidy(Wrapped(inner))
    ensures Tidy(inner)
    ensures Marks(Wrapped(inner)) == [OPEN] + Marks(inner) + [CLOSE]
  {
    ReadWrapped(inner);
    SqueezeWrapped(inner);
    assert Wrapped(Squeezed(inner))[1..|Wrapped(Squeezed(inner))| - 1] == Squeezed(inner);
    assert Wrapped(inner)[1..|Wrapped(inner)| - 1] == inner;
    SqueezedIsCanonical(inner, inner);
  }

  /** Inside enclosing parentheses is another tidy text. */
  lemma InnerTidy(v: string)
    requires Tidy(v) && |v| >= 2 && v[0] == '(' && v[|v| - 1] == ')'
    ensures Tidy(v[1..|v| - 1])
    ensures Marks(v) == [OPEN] + Marks(v[1..|v| - 1]) + [CLOSE]
  {
    var inner := v[1..|v| - 1];
    assert v == Wrapped(inner);
    WrappedTidy(inner);
  }

  /** `inner` is `outer` without some opening marks at the front and as many closing ones at the back. */
  predicate Within(inner: seq<Mark>, outer: seq<Mark>)
    decreases |outer|
  {
    inner == outer ||
    (|outer| >= 2 && outer[0] == OPEN && outer[|outer| - 1] == CLOSE && Within(inner, outer[1..|outer| - 1]))
  }

  lemma {:induction false} UnwrapsTidily(v: string)
    requires Tidy(v)
    ensures Tidy(Unwrapped(v)) && !Encloses(Unwrapped(v)) && Within(Marks(Unwrapped(v)), Marks(v))
    decreases |v|
  {
    if Encloses(v) {
      EnclosingIsTwo(v);
      InnerTidy(v);
      var inner := v[1..|v| - 1];
      UnwrapsTidily(inner);
      assert Marks(v)[1..|Marks(v)| - 1] == Marks(inner);
    }
  }

  /** The normal form is a normal form. */
  lemma Idempotent(s: string)
    ensures Normalised(Normalised(s)) == Normalised(s)
  {
    var v := Strip(s);
    if Readable(v) {
      SqueezedIsCanonical(v, v);
      UnwrapsTidily(Squeezed(v));
    } else {
      StripTwice(s);
    }
  }

  lemma {:induction false} StripTwice(s: string)
    ensures Strip(Strip(s)) == Strip(s)
    decreases |s|
  {
    if s != "" && IsSpace(s[0]) { StripTwice(s[1..]); }
    else if s != "" && IsSpace(s[|s| - 1]) { StripTwice(s[..|s| - 1]); }
  }

  /** All that normalising a readable text takes away are enclosing pairs of parentheses, and it takes all of
      those: every other mark, quoted or not, is still there, in order and spaced as before. */
  lemma OnlyParenthesesGo(s: string)
    requires Readable(s)
    ensures Within(Marks(Normalised(s)), Marks(s)) && !Encloses(Normalised(s))
  {
    NormalisedIs(s);
    SqueezedIsCanonical(s, s);
    UnwrapsTidily(Squeezed(s));
  }

  // ------------------------------------------------------------ the two loops

  predicate PairAt(value: string, index: nat) {
    index + 1 < |value| && StartsComment(value[index], value[index + 1])
  }

  /** `quote` is what the reading is inside of; a repeated closing quote is never split. */
  predicate Tracked(value: string, index: nat, quote: Option<char>, mode: Mode)
    requires index <= |value|
  {
    && (mode.Inside? <==> quote.Some?) && (mode.Inside? ==> quote.value == mode.close)
    && (mode.Closed? && index < |value| ==> value[index] != mode.close)
  }

  /** The first loop looks one character ahead where the reading looks one back. */
  predicate Aligned(value: string, index: nat, quote: Option<char>, mode: Mode)
    requires index <= |value|
  {
    && Tracked(value, index, quote, mode)
    && (mode.Bare? && index < |value| ==> !StartsComment(mode.prev, value[index]))
  }

  lemma NextPrefix(value: string, index: nat)
    requires index < |value|
    ensures ReadAll(START, value[..index + 1]) == Read(ReadAll(START, value[..index]), value[index])
  {
    ReadNext(START, value[..index], value[index]);
    assert value[..index + 1] == value[..index] + [value[index]];
  }

  lemma ReadQuoted(r: Reading, c: char)
    requires r.mode.Inside? || r.mode == Closed(c)
    ensures var n := Read(r, c);
      n.comment == r.comment && Write(n.marks) == Write(r.marks) + [c] &&
      n.mode == if r.mode == Inside(c) then Closed(c) else Inside(r.mode.close)
  {
    WriteOne(r.marks, Mark(c, true, false));
  }

  /** After one quoted character, or after the closing quote twice. */
  function AfterPiece(r: Reading, piece: string): Reading
    requires 1 <= |piece| <= 2
  {
    if |piece| == 1 then Read(r, piece[0]) else Read(Read(r, piece[0]), piece[1])
  }

  /** One character of the text, or two. */
  predicate PieceAt(value: string, index: nat, piece: string) {
    || (index < |value| && piece == [value[index]])
    || (index + 1 < |value| && piece == [value[index], value[index + 1]])
  }

  lemma ReadPieceAt(value: string, index: nat, piece: string)
    requires PieceAt(value, index, piece)
    ensures index + |piece| <= |value|
    ensures ReadAll(START, value[..index + |piece|]) == AfterPiece(ReadAll(START, value[..index]), piece)
  {
    NextPrefix(value, index);
    if |piece| == 2 { NextPrefix(value, index + 1); }
  }

  /** A quoted character, with the one after it if that repeats the closing quote. */
  method CopyQuoted(value: string, index: nat, close: char, ghost r: Reading)
    returns (piece: string, quote: Option<char>)
    requires index < |value| && r.mode == Inside(close)
    ensures PieceAt(value, index, piece)
    ensures var n := AfterPiece(r, piece);
      Aligned(value, index + |piece|, quote, n.mode) && Write(n.marks) == Write(r.marks) + piece &&
      n.comment == r.comment && !n.mode.Bare?
  {
    var c := value[index];
    ReadQuoted(r, c);
    if c == close && index + 1 < |value| && value[index + 1] == close {
      ReadQuoted(Read(r, c), close);
      JoinPieces(Write(r.marks), c, close);
      return [c, close], Some(close);
    }
    return [c], if c == close then None else Some(close);
  }

  lemma JoinPieces(s: string, c: char, d: char)
    ensures s + [c] + [d] == s + [c, d]
  {
  }

  lemma PendingIsSpaced(r: Reading, pending: bool, normalized: string, c: char)
    requires normalized == Write(r.marks)
    requires (pending ==> r.mode == Bare(' ')) && (r.mode == Bare(' ') && normalized != "" ==> pending)
    ensures Spaced(r, c) <==>
      pending && normalized != "" && !IsPunctuation(normalized[|normalized| - 1]) && !IsPunctuation(c)
  {
    if r.marks != [] { WriteEnds(r.marks); }
  }

  /** A character between quotes that is neither white space nor the start of a comment. */
  method CopyBare(value: string, index: nat, pending: bool, normalized: string, ghost r: Reading)
    returns (piece: string, quote: Option<char>)
    requires index < |value| && Sensible(r)
    requires Aligned(value, index, None, r.mode) && !IsSpace(value[index]) && !PairAt(value, index)
    requires normalized == Write(r.marks)
    requires (pending ==> r.mode == Bare(' ')) && (r.mode == Bare(' ') && normalized != "" ==> pending)
    ensures var n := Read(r, value[index]);
      Aligned(value, index + 1, quote, n.mode) && Write(n.marks) == normalized + piece &&
      n.comment == r.comment && n.mode != Bare(' ')
  {
    var c := value[index];
    PendingIsSpaced(r, pending, normalized, c);
    WriteOne(r.marks, NextMark(r, c));
    piece, quote := "", None;
    if pending && normalized != "" {
      if !IsPunctuation(normalized[|normalized| - 1]) && !IsPunctuation(c) { piece := " "; }
    }
    if Opens(c) {
      quote := Some(Closer(c));
      piece := piece + [c];
    } else {
      piece := piece + [Lower(c)];
    }
  }

  /** How far the first loop has got. */
  predicate Underway(value: string, index: nat, normalized: string, quote: Option<char>, pending: bool, r: Reading)
    requires index <= |value|
  {
    && r == ReadAll(START, value[..index]) && !r.comment && Aligned(value, index, quote, r.mode)
    && normalized == Write(r.marks)
    && (pending ==> r.mode == Bare(' ')) && (r.mode == Bare(' ') && normalized != "" ==> pending)
  }

  lemma ReadSpace(value: string, index: nat, normalized: string, pending: bool, r: Reading) returns (n: Reading)
    requires index < |value| && Underway(value, index, normalized, None, pending, r) && IsSpace(value[index])
    ensures Underway(value, index + 1, normalized + "", None, true, n)
  {
    n := Read(r, value[index]);
    AlwaysSensible(value[..index]);
    NextPrefix(value, index);
    assert normalized + "" == normalized;
  }

  lemma UnderwayQuoted(value: string, index: nat, normalized: string, quote: char, r: Reading, piece: string,
                       next: Option<char>)
    requires PieceAt(value, index, piece)
    requires Underway(value, index, normalized, Some(quote), false, r)
    requires var n := AfterPiece(r, piece);
      Aligned(value, index + |piece|, next, n.mode) && Write(n.marks) == Write(r.marks) + piece &&
      n.comment == r.comment && !n.mode.Bare?
    ensures Underway(value, index + |piece|, normalized + piece, next, false, AfterPiece(r, piece))
  {
    ReadPieceAt(value, index, piece);
  }

  lemma UnderwayBare(value: string, index: nat, normalized: string, pending: bool, r: Reading, piece: string,
                     next: Option<char>)
    requires index < |value| && Underway(value, index, normalized, None, pending, r)
    requires var n := Read(r, value[index]);
      Aligned(value, index + 1, next, n.mode) && Write(n.marks) == normalized + piece && n.comment == r.comment &&
      n.mode != Bare(' ')
    ensures Underway(value, index + 1, normalized + piece, next, false, Read(r, value[index]))
  {
    NextPrefix(value, index);
  }

  method TakeQuoted(value: string, index: nat, normalized: string, close: char, ghost r: Reading)
    returns (piece: string, read: nat, next: Option<char>, ghost n: Reading)
    requires index < |value| && Underway(value, index, normalized, Some(close), false, r)
    ensures 1 <= read <= |value| - index
    ensures Underway(value, index + read, normalized + piece, next, false, n)
  {
    piece, next := CopyQuoted(value, index, close, r);
    UnderwayQuoted(value, index, normalized, close, r, piece, next);
    read, n := |piece|, AfterPiece(r, piece);
  }

  method TakeBare(value: string, index: nat, normalized: string, pending: bool, ghost r: Reading)
    returns (piece: string, next: Option<char>, ghost n: Reading)
    requires index < |value| && Underway(value, index, normalized, None, pending, r)
    requires !IsSpace(value[index]) && !PairAt(value, index)
    ensures Underway(value, index + 1, normalized + piece, next, false, n)
  {
    AlwaysSensible(value[..index]);
    piece, next := CopyBare(value, index, pending, normalized, r);
    UnderwayBare(value, index, normalized, pending, r, piece, next);
    n := Read(r, value[index]);
  }

  /** One turn of the first loop; `comment` means that a comment starts here, and nothing is taken. */
  method TakeOne(value: string, index: nat, normalized: string, quote: Option<char>, pending: bool, ghost r: Reading)
    returns (piece: string, read: nat, next: Option<char>, nextPending: bool, comment: bool, ghost n: Reading)
    requires index < |value| && (quote.Some? ==> !pending) && Underway(value, index, normalized, quote, pending, r)
    ensures comment ==> !Readable(value)
    ensures !comment ==> 1 <= read <= |value| - index && (next.Some? ==> !nextPending)
    ensures !comment ==> Underway(value, index + read, normalized + piece, next, nextPending, n)
  {
    piece, read, next, nextPending, comment, n := "", 1, None, false, false, r;
    if quote.Some? {
      piece, read, next, n := TakeQuoted(value, index, normalized, quote.value, r);
    } else if IsSpace(value[index]) {
      n := ReadSpace(value, index, normalized, pending, r);
      nextPending := true;
    } else if PairAt(value, index) {
      CommentSeen(value, index);
      comment := true;
    } else {
      piece, next, n := TakeBare(value, index, normalized, pending, r);
    }
  }

  /** The first loop. `None` means that the text cannot be read. */
  method Squeeze(value: string) returns (result: Option<string>)
    ensures result == if Readable(value) then Some(Squeezed(value)) else None
  {
    var normalized, quote, pendingSpace, index := "", None, false, 0;
    ghost var r := START;
    while index < |value|
      invariant 0 <= index <= |value| && (quote.Some? ==> !pendingSpace)
      invariant Underway(value, index, normalized, quote, pendingSpace, r)
      decreases |value| - index
    {
      var piece, read, comment;
      piece, read, quote, pendingSpace, comment, r := TakeOne(value, index, normalized, quote, pendingSpace, r);
      if comment { return None; }
      normalized, index := normalized + piece, index + read;
    }
    AllRead(value, normalized, quote, pendingSpace, r);
    return if quote.Some? then None else Some(normalized);
  }

  lemma AllRead(value: string, normalized: string, quote: Option<char>, pending: bool, r: Reading)
    requires Underway(value, |value|, normalized, quote, pending, r)
    ensures Readable(value) <==> quote.None?
    ensures normalized == Squeezed(value)
  {
    assert value[..|value|] == value;
  }

  /** Two characters that start a comment between quotes make the whole text unreadable. */
  lemma CommentSeen(value: string, index: nat)
    requires PairAt(value, index)
    requires var m := ReadAll(START, value[..index]).mode; !m.Inside? && m != Closed(value[index])
    ensures !Readable(value)
  {
    NextPrefix(value, index);
    NextPrefix(value, index + 1);
    assert value == value[..index + 2] + value[index + 2..];
    ReadOn(START, value[..index + 2], value[index + 2..]);
    CommentStays(ReadAll(START, value[..index + 2]), value[index + 2..]);
  }

  lemma DepthOne(marks: seq<Mark>, m: Mark)
    ensures Depth(marks + [m]) == Depth(marks) + Turn(m)
  {
    assert (marks + [m])[..|marks|] == marks;
  }

  /** All prefixes but the empty one are inside the first parenthesis. */
  predicate Positive(marks: seq<Mark>) { forall k :: 0 < k <= |marks| ==> Depth(marks[..k]) > 0 }

  lemma PositiveOne(marks: seq<Mark>, m: Mark)
    requires Positive(marks)
    ensures Positive(marks + [m]) <==> Depth(marks + [m]) > 0
  {
    var more := marks + [m];
    assert more[..|more|] == more;
    forall k | 0 < k <= |marks| ensures Depth(more[..k]) > 0 { assert more[..k] == marks[..k]; }
  }

  /** The text ends in a mark, so a proper prefix has fewer. */
  lemma MoreToCome(value: string, index: nat)
    requires index < |value| && !IsSpace(value[|value| - 1])
    ensures Marks(value[..index]) < Marks(value)
  {
    PrefixMarks(value, index, |value| - 1);
    LastMark(value);
  }

  lemma PrefixMarks(value: string, i: nat, n: nat)
    requires i <= n <= |value|
    ensures Marks(value[..i]) <= Marks(value[..n])
  {
    assert value[..n] == value[..i] + value[i..n];
    ReadOn(START, value[..i], value[i..n]);
    MarksGrow(ReadAll(START, value[..i]), value[i..n]);
  }

  lemma LastMark(value: string)
    requires value != "" && !IsSpace(value[|value| - 1])
    ensures Marks(value[..|value| - 1]) < Marks(value)
  {
    assert ReadAll(START, value) == Read(ReadAll(START, value[..|value| - 1]), value[|value| - 1]);
  }

  /** How far the second loop has got. */
  predicate Counting(value: string, index: nat, depth: int, quote: Option<char>, r: Reading)
    requires index <= |value|
  {
    r == ReadAll(START, value[..index]) && Tracked(value, index, quote, r.mode) && depth == Depth(r.marks)
  }

  /** One more character outside the role of a parenthesis leaves the depth alone. */
  lemma CountOne(r: Reading, c: char)
    requires r.marks != [] && Positive(r.marks)
    ensures var n := Read(r, c);
      && n.marks != []
      && (r.mode.Inside? || r.mode == Closed(c) || Opens(c) || IsSpace(c) || (c != '(' && c != ')') ==>
            (Depth(n.marks) == Depth(r.marks) && Positive(n.marks)))
  {
    var n := Read(r, c);
    assert r.marks[..|r.marks|] == r.marks;
    if n.marks != r.marks {
      var m := n.marks[|n.marks| - 1];
      assert n.marks == r.marks + [m];
      DepthOne(r.marks, m);
      PositiveOne(r.marks, m);
    }
  }

  /** A parenthesis outside quotes. */
  lemma TurnOne(r: Reading, c: char)
    requires (c == '(' || c == ')') && !r.mode.Inside? && r.mode != Closed(c)
    requires Positive(r.marks)
    ensures var n := Read(r, c); var m := Mark(c, false, false);
      && n == Reading(Bare(c), r.marks + [m], r.comment) && Depth(n.marks) == Depth(r.marks) + Turn(m)
      && (Positive(n.marks) <==> Depth(n.marks) > 0)
  {
    ReadParenthesis(r, c);
    DepthOne(r.marks, Mark(c, false, false));
    PositiveOne(r.marks, Mark(c, false, false));
  }

  lemma ReadParenthesis(r: Reading, c: char)
    requires (c == '(' || c == ')') && !r.mode.Inside? && r.mode != Closed(c)
    ensures Read(r, c) == Reading(Bare(c), r.marks + [Mark(c, false, false)], r.comment)
  {
    assert !IsSpace(c) && !Opens(c) && Lower(c) == c;
    assert !Spaced(r, c);
  }

  /** The depth is back at zero before the end. */
  lemma ClosedTooEarly(value: string, index: nat)
    requires index < |value| && !IsSpace(value[|value| - 1])
    requires Marks(value[..index]) != [] && Depth(Marks(value[..index])) <= 0
    ensures !Encloses(value)
  {
    MoreToCome(value, index);
    var m := Marks(value[..index]);
    assert Marks(value)[..|m|] == m;
  }

  /** At the end of the text: inside the parenthesis all along, and out of it only now. */
  lemma ClosedAtLast(value: string, before: seq<Mark>, depth: int)
    requires value != "" && value[0] == '(' && value[|value| - 1] == ')'
    requires Depth(Marks(value)) == depth && Marks(value) != [] && before < Marks(value) && Positive(before)
    requires |before| == |Marks(value)| - 1 && (depth == 0 || Positive(Marks(value)))
    ensures depth == 0 <==> Encloses(value)
  {
    var m := Marks(value);
    forall k | 0 < k < |m| ensures Depth(m[..k]) == Depth(before[..k]) { assert m[..k] == before[..k]; }
  }

  /** Inside quotes: past this character, and past its repetition if it is the closing quote twice. */
  method SkipQuoted(value: string, index: nat, close: char, depth: int, ghost r: Reading)
    returns (next: nat, quote: Option<char>, ghost n: Reading)
    requires index < |value| && Counting(value, index, depth, Some(close), r) && Positive(r.marks) && r.marks != []
    ensures index < next <= |value| && Counting(value, next, depth, quote, n) && Positive(n.marks) && n.marks != []
  {
    next, quote, n := index + 1, Some(close), Read(r, value[index]);
    NextPrefix(value, index);
    CountOne(r, value[index]);
    if value[index] == close {
      if index + 1 < |value| && value[index + 1] == close {
        NextPrefix(value, index + 1);
        CountOne(n, close);
        next, n := index + 2, Read(n, close);
      } else {
        quote := None;
      }
    }
  }

  /** Outside quotes: a quote opens, or the depth changes, or neither. */
  method CountBare(value: string, index: nat, depth: int, ghost r: Reading)
    returns (nextDepth: int, quote: Option<char>)
    requires index < |value| && Sensible(r) && Tracked(value, index, None, r.mode)
    requires depth == Depth(r.marks) && Positive(r.marks) && (r.marks != [] || value[index] == '(')
    ensures var n := Read(r, value[index]);
      && Tracked(value, index + 1, quote, n.mode) && nextDepth == Depth(n.marks) && n.marks != []
      && (Positive(n.marks) || nextDepth == 0)
      && (nextDepth == 0 ==> r.marks < n.marks && |n.marks| == |r.marks| + 1)
  {
    nextDepth, quote := depth, None;
    if r.marks != [] {
      CountOne(r, value[index]);
      assert depth > 0 by { assert r.marks[..|r.marks|] == r.marks; }
    }
    if Opens(value[index]) {
      quote := Some(Closer(value[index]));
    } else if value[index] == '(' {
      TurnOne(r, '(');
      nextDepth := depth + 1;
    } else if value[index] == ')' {
      TurnOne(r, ')');
      nextDepth := depth - 1;
    }
  }

  /** The second loop: whether one pair of parentheses encloses the whole text. */
  method EnclosesAll(value: string) returns (result: bool)
    requires value != "" && value[0] == '(' && value[|value| - 1] == ')'
    ensures result <==> Encloses(value)
  {
    var depth, quote, index := 0, None, 0;
    ghost var r, before := START, [];
    while index < |value|
      invariant 0 <= index <= |value| && Scanning(value, index, depth, quote, r, before)
      decreases |value| - index
    {
      if quote.Some? {
        index, quote, r := SkipQuoted(value, index, quote.value, depth, r);
      } else {
        before := r.marks;
        var early;
        depth, quote, early := ScanBare(value, index, depth, r);
        if early { return false; }
        r, index := Read(r, value[index]), index + 1;
      }
    }
    ScanEnds(value, depth, quote, r, before);
    return depth == 0;
  }

  /** Outside quotes: one character, which may close the first parenthesis before the end of the text. */
  method ScanBare(value: string, index: nat, depth: int, ghost r: Reading)
    returns (nextDepth: int, quote: Option<char>, early: bool)
    requires index < |value| && value[0] == '(' && !IsSpace(value[|value| - 1])
    requires Counting(value, index, depth, None, r) && Positive(r.marks) && (index == 0 || r.marks != [])
    ensures early ==> !Encloses(value)
    ensures !early ==> Scanning(value, index + 1, nextDepth, quote, Read(r, value[index]), r.marks)
  {
    NextPrefix(value, index);
    AlwaysSensible(value[..index]);
    if index == 0 { assert value[..index] == ""; }
    nextDepth, quote := CountBare(value, index, depth, r);
    early := nextDepth == 0 && index != |value| - 1;
    if early { ClosedTooEarly(value, index + 1); }
  }

  /** How far the second loop has got: always inside the first parenthesis, except perhaps at the very end. */
  ghost predicate Scanning(value: string, index: nat, depth: int, quote: Option<char>, r: Reading, before: seq<Mark>)
    requires index <= |value|
  {
    && Counting(value, index, depth, quote, r) && (index == 0 || r.marks != [])
    && (Positive(r.marks) ||
        (index == |value| && depth == 0 && before < r.marks && |before| == |r.marks| - 1 && Positive(before)))
  }

  lemma ScanEnds(value: string, depth: int, quote: Option<char>, r: Reading, before: seq<Mark>)
    requires value != "" && value[0] == '(' && value[|value| - 1] == ')'
    requires Scanning(value, |value|, depth, quote, r, before)
    ensures depth == 0 <==> Encloses(value)
  {
    assert value[..|value|] == value;
    if Positive(r.marks) {
      PositivePrefix(r.marks);
      ClosedAtLast(value, r.marks[..|r.marks| - 1], depth);
    } else {
      ClosedAtLast(value, before, depth);
    }
  }

  lemma PositivePrefix(marks: seq<Mark>)
    requires Positive(marks) && marks != []
    ensures Positive(marks[..|marks| - 1])
  {
    var most := marks[..|marks| - 1];
    forall k | 0 < k <= |most| ensures Depth(most[..k]) > 0 { assert most[..k] == marks[..k]; }
  }

  method Normalise(predicateText: Option<string>) returns (result: Option<string>)
    ensures result == if predicateText.Some? then Some(Normalised(predicateText.value)) else None
  {
    if predicateText.None? { return None; }
    var value := Strip(predicateText.value);
    var squeezed := Squeeze(value);
    if squeezed.None? { return Some(value); }
    SqueezedIsCanonical(value, value);
    value := Strip(squeezed.value);
    ghost var goal := Unwrapped(value);
    while value != "" && value[0] == '(' && value[|value| - 1] == ')'
      invariant Unwrapped(value) == goal
      decreases |value|
    {
      var enclosing := EnclosesAll(value);
      if !enclosing { break; }
      EnclosingIsTwo(value);
      StripIsShorter(value[1..|value| - 1]);
      value := Strip(value[1..|value| - 1]);
    }
    return Some(value);
  }
}