/**
 Placeholder translation between two SQL dialects: split a statement into string literals and the rest, escape every
 percent sign, and turn question marks outside literals into the driver's parameter marks.
 */
module Sql {
  import opened Wrappers

  datatype Segment = Segment(literal: bool, text: string)

  const QUOTE := '\''

  // ---------------------------------------------------------------- inside or outside a literal, by counting quotes

  /** Whether a position after `t` is inside a literal, when the position before it was `inside`. */
  function Inside(t: string, inside: bool): bool {
    if t == [] then inside else Inside(t[..|t| - 1], inside) != (t[|t| - 1] == QUOTE)
  }

  ghost function Flat(parts: seq<Segment>): string {
    if parts == [] then [] else Flat(parts[..|parts| - 1]) + parts[|parts| - 1].text
  }

  lemma {:induction false} InsideConcat(a: string, b: string, inside: bool)
    ensures Inside(a + b, inside) == Inside(b, Inside(a, inside))
  {
    if b == [] {
      assert a + b == a;
    } else {
      InsideConcat(a, b[..|b| - 1], inside);
      assert (a + b)[..|a + b| - 1] == a + b[..|b| - 1];
    }
  }

  lemma FlatAppend(parts: seq<Segment>, p: Segment)
    ensures Flat(parts + [p]) == Flat(parts) + p.text
  {
    assert (parts + [p])[..|parts|] == parts;
  }

  // ---------------------------------------------------------------- the segments

  /** Text without a quote. */
  ghost predicate Plain(t: string) {
    QUOTE !in t
  }

  /** A quote, then text whose every character is inside the literal it opens. */
  ghost predicate Literal(t: string) {
    t != [] && t[0] == QUOTE && forall p :: 0 < p < |t| ==> t[p] == QUOTE || Inside(t[..p], false)
  }

  ghost predicate Proper(p: Segment) {
    p.text != [] && if p.literal then Literal(p.text) else Plain(p.text)
  }

  /** Segments are proper and strictly alternate, and every literal but the last is closed. */
  ghost predicate Alternates(parts: seq<Segment>) {
    && (forall k :: 0 <= k < |parts| ==> Proper(parts[k]))
    && (forall k :: 0 <= k < |parts| - 1 ==> parts[k].literal != parts[k + 1].literal && !Inside(parts[k].text, false))
  }

  lemma AlternatesAppend(parts: seq<Segment>, p: Segment)
    requires Alternates(parts) && Proper(p)
    requires parts != [] ==> var last := parts[|parts| - 1]; last.literal != p.literal && !Inside(last.text, false)
    ensures Alternates(parts + [p])
  {
    hide Proper;
  }

  lemma {:induction false} PlainStaysOutside(t: string)
    requires Plain(t)
    ensures !Inside(t, false)
  {
    if t != [] { PlainStaysOutside(t[..|t| - 1]); }
  }

  /** The scan of one literal from its opening quote: where it ends, at its closing quote or at the end of the text. */
  method ScanLiteral(sql: string, i: nat) returns (j: nat)
    requires i < |sql| && sql[i] == QUOTE
    ensures i < j <= |sql|
    ensures var end := if j < |sql| then j + 1 else j;
            Literal(sql[i..end]) && (j < |sql| ==> !Inside(sql[i..end], false))
    ensures j + 1 < |sql| ==> sql[j + 1] != QUOTE
  {
    j := i + 1;
    assert sql[i..j] == [QUOTE];
    while j < |sql|
      invariant i < j <= |sql|
      invariant Literal(sql[i..j]) && Inside(sql[i..j], false)
      decreases |sql| - j
    {
      if sql[j] == QUOTE && j + 1 < |sql| && sql[j + 1] == QUOTE {
        LiteralGrows(sql, i, j);
        LiteralGrows(sql, i, j + 1);
        j := j + 2;
        continue;
      }
      LiteralGrows(sql, i, j);
      if sql[j] == QUOTE { return; }
      j := j + 1;
    }
  }

  lemma LiteralGrows(sql: string, i: nat, j: nat)
    requires i < j < |sql| && Literal(sql[i..j]) && (Inside(sql[i..j], false) || sql[j] == QUOTE)
    ensures Literal(sql[i..j + 1]) && Inside(sql[i..j + 1], false) == (Inside(sql[i..j], false) != (sql[j] == QUOTE))
  {
    var t, u := sql[i..j], sql[i..j + 1];
    assert u[..|u| - 1] == t && u[|u| - 1] == sql[j];
    forall p | 0 < p < |u| ensures u[p] == QUOTE || Inside(u[..p], false) {
      if p < |t| { assert u[..p] == t[..p] && u[p] == t[p]; } else { assert u[..p] == t; }
    }
  }

  function Flushed(parts: seq<Segment>, buf: string): seq<Segment> {
    if buf == [] then parts else parts + [Segment(false, buf)]
  }

  /** The split of the first `i` characters: finished segments, then the plain text collected since the last literal. */
  ghost predicate Splits(sql: string, i: nat, parts: seq<Segment>, buf: string) {
    && i <= |sql| + 1 && Alternates(parts) && Plain(buf)
    && Flat(parts) + buf == sql[..if i < |sql| then i else |sql|]
    && (i > |sql| ==> buf == [])
    && (parts != [] ==>
          var last := parts[|parts| - 1];
          && last.literal && (i <= |sql| ==> !Inside(last.text, false))
          && (buf == [] && i < |sql| ==> sql[i] != QUOTE))
  }

  lemma SplitsStart(sql: string)
    ensures Splits(sql, 0, [], [])
  {
  }

  lemma SplitsPlain(sql: string, i: nat, parts: seq<Segment>, buf: string)
    requires Splits(sql, i, parts, buf) && i < |sql| && sql[i] != QUOTE
    ensures Splits(sql, i + 1, parts, buf + [sql[i]])
  {
    hide Alternates, Flat, Inside;
    assert sql[..i + 1] == sql[..i] + [sql[i]];
  }

  lemma FlushedAlternates(sql: string, i: nat, parts: seq<Segment>, buf: string)
    requires Splits(sql, i, parts, buf)
    ensures var f := Flushed(parts, buf);
            && Alternates(f) && Flat(f) == Flat(parts) + buf
            && (buf != [] ==> !f[|f| - 1].literal && !Inside(f[|f| - 1].text, false))
  {
    hide Alternates, Flat, Literal;
    if buf != [] {
      AlternatesAppend(parts, Segment(false, buf));
      FlatAppend(parts, Segment(false, buf));
      PlainStaysOutside(buf);
    }
  }

  lemma SplitsLiteral(sql: string, i: nat, parts: seq<Segment>, buf: string, j: nat, end: nat)
    requires Splits(sql, i, parts, buf) && i < |sql| && sql[i] == QUOTE
    requires i < j <= |sql| && end == (if j < |sql| then j + 1 else j) && Literal(sql[i..end])
    requires (j < |sql| ==> !Inside(sql[i..end], false)) && (j + 1 < |sql| ==> sql[j + 1] != QUOTE)
    ensures Splits(sql, j + 1, Flushed(parts, buf) + [Segment(true, sql[i..end])], [])
  {
    hide Alternates, Flat, Literal, Inside;
    FlushedAlternates(sql, i, parts, buf);
    var f, p := Flushed(parts, buf), Segment(true, sql[i..end]);
    AlternatesAppend(f, p);
    FlatAppend(f, p);
    assert sql[..i] + sql[i..end] == sql[..end];
  }

  /**
   The segments concatenate back to the statement, literal and plain segments strictly alternate, and every literal is
   what the quotes before its characters say.
   */
  method SplitLiterals(sql: string) returns (parts: seq<Segment>)
    ensures Flat(parts) == sql && Alternates(parts)
  {
    hide Alternates, Literal, Flat, Inside, Flushed, Splits;
    parts := [];
    var buf: string := [];
    var i := 0;
    SplitsStart(sql);
    while i < |sql|
      invariant Splits(sql, i, parts, buf)
      decreases |sql| + 1 - i
    {
      if sql[i] == QUOTE {
        var j := ScanLiteral(sql, i);
        var end := if j < |sql| then j + 1 else j;
        SplitsLiteral(sql, i, parts, buf, j, end);
        parts, buf := Flushed(parts, buf) + [Segment(true, sql[i..end])], [];
        i := j + 1;
      } else {
        SplitsPlain(sql, i, parts, buf);
        buf := buf + [sql[i]];
        i := i + 1;
      }
    }
    FlushedAlternates(sql, i, parts, buf);
    SplitsAll(sql, i, parts, buf);
    parts := Flushed(parts, buf);
  }

  lemma SplitsAll(sql: string, i: nat, parts: seq<Segment>, buf: string)
    requires Splits(sql, i, parts, buf) && i >= |sql|
    ensures Flat(parts) + buf == sql
  {
    assert sql[..|sql|] == sql;
  }

  // ---------------------------------------------------------------- rewriting and reading

  datatype Token = Char(c: char) | Param

  /** `str.replace` of one character. */
  function Replace(t: string, c: char, to: string): string {
    if t == [] then [] else Replace(t[..|t| - 1], c, to) + if t[|t| - 1] == c then to else [t[|t| - 1]]
  }

  function Rewritten(p: Segment): string {
    var escaped := Replace(p.text, '%', "%%");
    if p.literal then escaped else Replace(escaped, '?', "%s")
  }

  ghost function RewrittenAll(parts: seq<Segment>): string {
    if parts == [] then [] else RewrittenAll(parts[..|parts| - 1]) + Rewritten(parts[|parts| - 1])
  }

  /** How the driver reads a statement: `%%` is a percent sign, `%s` a parameter, any other `%` an error. */
  function Read(t: string): Option<seq<Token>> {
    if t == [] then Some([])
    else if t[0] != '%' then Before(Char(t[0]), Read(t[1..]))
    else if |t| >= 2 && t[1] == '%' then Before(Char('%'), Read(t[2..]))
    else if |t| >= 2 && t[1] == 's' then Before(Param, Read(t[2..]))
    else None
  }

  function Before(x: Token, rest: Option<seq<Token>>): Option<seq<Token>> {
    if rest.None? then None else Some([x] + rest.value)
  }

  function Both(a: Option<seq<Token>>, b: Option<seq<Token>>): Option<seq<Token>> {
    if a.None? || b.None? then None else Some(a.value + b.value)
  }

  /** What a statement means: its question marks outside literals are parameters, everything else is itself. */
  function Meaning(t: string, inside: bool): seq<Token> {
    if t == [] then []
    else
      var front, c := t[..|t| - 1], t[|t| - 1];
      Meaning(front, inside) + [if c == '?' && !Inside(front, inside) then Param else Char(c)]
  }

  lemma {:induction false} ReadConcat(a: string, b: string)
    requires Read(a).Some?
    ensures Read(a + b) == Both(Read(a), Read(b))
  {
    if a == [] {
      assert a + b == b;
      assert Read(b).Some? ==> [] + Read(b).value == Read(b).value;
    } else {
      var n := if a[0] == '%' then 2 else 1;
      assert (a + b)[n..] == a[n..] + b;
      ReadConcat(a[n..], b);
      var x := if a[0] != '%' then Char(a[0]) else if a[1] == '%' then Char('%') else Param;
      BothAssociates(x, Read(a[n..]), Read(b));
    }
  }

  lemma BothAssociates(x: Token, a: Option<seq<Token>>, b: Option<seq<Token>>)
    ensures Before(x, Both(a, b)) == Both(Before(x, a), b)
  {
    if a.Some? && b.Some? { assert [x] + (a.value + b.value) == [x] + a.value + b.value; }
  }

  lemma {:induction false} ReplaceConcat(a: string, b: string, c: char, to: string)
    ensures Replace(a + b, c, to) == Replace(a, c, to) + Replace(b, c, to)
  {
    if b == [] {
      assert a + b == a;
    } else {
      var front, last := b[..|b| - 1], if b[|b| - 1] == c then to else [b[|b| - 1]];
      ReplaceConcat(a, front, c, to);
      assert (a + b)[..|a + b| - 1] == a + front && (a + b)[|a + b| - 1] == b[|b| - 1];
      assert Replace(a, c, to) + Replace(front, c, to) + last == Replace(a, c, to) + (Replace(front, c, to) + last);
    }
  }

  /** One character of a plain segment after both replacements, and of a literal after the first. */
  function Mark(c: char, literal: bool): string {
    if c == '%' then "%%" else if c == '?' && !literal then "%s" else [c]
  }

  function MarkAll(t: string, literal: bool): string {
    if t == [] then [] else MarkAll(t[..|t| - 1], literal) + Mark(t[|t| - 1], literal)
  }

  lemma {:induction false} RewrittenMarks(t: string, literal: bool)
    ensures Rewritten(Segment(literal, t)) == MarkAll(t, literal)
  {
    if t != [] {
      var front, c := t[..|t| - 1], t[|t| - 1];
      RewrittenMarks(front, literal);
      var tail := if c == '%' then "%%" else [c];
      ReplaceConcat(Replace(front, '%', "%%"), tail, '?', "%s");
      OneMark(c);
    }
  }

  lemma OneMark(c: char)
    ensures Replace(if c == '%' then "%%" else [c], '?', "%s") == Mark(c, false)
  {
    if c == '%' {
      assert "%%"[..1] == "%" && "%"[..0] == [];
      assert Replace("%", '?', "%s") == "%";
    } else {
      assert [c][..0] == [];
    }
  }

  /** Reading back one rewritten segment gives the tokens of its text. */
  lemma {:induction false} ReadMarked(t: string, literal: bool)
    requires if literal then t == [] || Literal(t) else Plain(t)
    ensures Read(MarkAll(t, literal)) == Some(Meaning(t, false))
  {
    hide Inside;
    if t != [] {
      var front, c := t[..|t| - 1], t[|t| - 1];
      FrontOf(t, literal);
      ReadMarked(front, literal);
      ReadConcat(MarkAll(front, literal), Mark(c, literal));
      ReadMark(c, literal);
    }
  }

  lemma ReadMark(c: char, literal: bool)
    ensures Read(Mark(c, literal)) == Some([if c == '?' && !literal then Param else Char(c)])
  {
    if c == '%' || (c == '?' && !literal) {
      var t := Mark(c, literal);
      var x := if c == '%' then Char('%') else Param;
      assert |t| == 2 && t[2..] == [] && Read([]) == Some([]);
      assert [x] + [] == [x];
      assert Read(t) == Before(x, Read(t[2..]));
    } else {
      assert [c][1..] == [] && [Char(c)] + [] == [Char(c)];
      assert Read([c]) == Before(Char(c), Read([c][1..]));
    }
  }

  lemma FrontOf(t: string, literal: bool)
    requires t != [] && if literal then Literal(t) else Plain(t)
    ensures var front := t[..|t| - 1];
            && (if literal then front == [] || Literal(front) else Plain(front))
            && (t[|t| - 1] != QUOTE ==> Inside(front, false) == literal)
  {
    var front := t[..|t| - 1];
    if literal {
      forall p | 0 < p < |front| ensures front[p] == QUOTE || Inside(front[..p], false) {
        assert t[p] == QUOTE || Inside(t[..p], false);
        assert front[..p] == t[..p];
      }
    } else {
      PlainStaysOutside(front);
    }
  }

  lemma {:induction false} MeaningConcat(a: string, b: string, inside: bool)
    ensures Meaning(a + b, inside) == Meaning(a, inside) + Meaning(b, Inside(a, inside))
  {
    if b == [] {
      assert a + b == a;
    } else {
      var front := b[..|b| - 1];
      MeaningConcat(a, front, inside);
      assert (a + b)[..|a + b| - 1] == a + front;
      InsideConcat(a, front, inside);
    }
  }

  lemma AlternatesFront(parts: seq<Segment>)
    requires Alternates(parts) && parts != []
    ensures Alternates(parts[..|parts| - 1]) && Proper(parts[|parts| - 1])
    ensures |parts| >= 2 ==> !Inside(parts[|parts| - 2].text, false)
  {
    hide Proper, Inside;
  }

  /** Before the last segment every literal is closed, so the next segment starts outside. */
  lemma {:induction false} ClosedBefore(parts: seq<Segment>)
    requires Alternates(parts) && (parts != [] ==> !Inside(parts[|parts| - 1].text, false))
    ensures !Inside(Flat(parts), false)
  {
    hide Proper;
    if parts != [] {
      var front := parts[..|parts| - 1];
      AlternatesFront(parts);
      ClosedBefore(front);
      InsideConcat(Flat(front), parts[|parts| - 1].text, false);
    }
  }

  /**
   The driver reads the rewritten segments as the statement itself, with exactly its question marks outside literals
   as parameters.
   */
  lemma {:induction false} RewritingKeepsMeaning(parts: seq<Segment>)
    requires Alternates(parts)
    ensures Read(RewrittenAll(parts)) == Some(Meaning(Flat(parts), false))
  {
    hide Rewritten, Inside, Literal, Plain;
    if parts != [] {
      var front, last := parts[..|parts| - 1], parts[|parts| - 1];
      AlternatesFront(parts);
      RewritingKeepsMeaning(front);
      ClosedBefore(front);
      RewrittenMarks(last.text, last.literal);
      ReadMarked(last.text, last.literal);
      ReadConcat(RewrittenAll(front), Rewritten(last));
      MeaningConcat(Flat(front), last.text, false);
    }
  }

  /** The segment phase of `translate` (keyword rewrites aside). */
  method Translate(sql: string) returns (result: string)
    ensures Read(result) == Some(Meaning(sql, false))
  {
    hide Rewritten, Alternates, Meaning, Read, Flat;
    var parts := SplitLiterals(sql);
    result := [];
    for i := 0 to |parts|
      invariant result == RewrittenAll(parts[..i])
    {
      assert parts[..i + 1][..i] == parts[..i];
      result := result + Rewritten(parts[i]);
    }
    assert parts[..|parts|] == parts;
    RewritingKeepsMeaning(parts);
  }

  /** A character belongs to a literal segment exactly when it is a quote or has an odd number of quotes before it. */
  lemma LiteralIsInside(parts: seq<Segment>, k: nat, p: nat)
    requires Alternates(parts) && k < |parts| && p < |parts[k].text|
    ensures parts[k].literal <==> parts[k].text[p] == QUOTE || Inside(Flat(parts[..k]) + parts[k].text[..p], false)
  {
    assert Alternates(parts[..k]) && (k > 0 ==> !Inside(parts[..k][k - 1].text, false));
    ClosedBefore(parts[..k]);
    InsideConcat(Flat(parts[..k]), parts[k].text[..p], false);
    assert Proper(parts[k]);
    if !parts[k].literal { PlainStaysOutside(parts[k].text[..p]); }
  }
}
