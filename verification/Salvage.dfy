/**
 Closing a JSON object that was cut off: scan for brackets outside strings with a stack, trim trailing blanks and
 commas, and append the closers the stack still holds.
 */
module Salvage {
  import opened Wrappers
  import Json

  // ---------------------------------------------------------------- strings

  /** Inside a string, and right after a backslash in it. */
  datatype Lexer = Lexer(inString: bool, escaped: bool)

  function LexStep(s: Lexer, c: char): Lexer {
    if s.inString then
      if s.escaped then Lexer(true, false) else if c == '\\' then Lexer(true, true) else Lexer(c != '"', false)
    else Lexer(c == '"', false)
  }

  function Lex(t: string): Lexer {
    if t == [] then Lexer(false, false) else LexStep(Lex(t[..|t| - 1]), t[|t| - 1])
  }

  predicate Opens(c: char) {
    c == '{' || c == '['
  }

  predicate Closes(c: char) {
    c == '}' || c == ']'
  }

  function CloserOf(c: char): char {
    if c == '{' then '}' else ']'
  }

  /** The brackets of a text that stand outside its strings. */
  function Word(t: string): string {
    if t == [] then []
    else
      var front, c := t[..|t| - 1], t[|t| - 1];
      if !Lex(front).inString && (Opens(c) || Closes(c)) then Word(front) + [c] else Word(front)
  }

  // ---------------------------------------------------------------- nesting, as a grammar

  /** Empty, or a bracket, a nested word, its closer and another nested word. */
  ghost predicate Nested(w: string)
    decreases |w|
  {
    w == [] || (Opens(w[0]) && exists k :: 0 < k < |w| && NestedAt(w, k))
  }

  ghost predicate NestedAt(w: string, k: nat)
    requires 0 < k < |w|
    decreases |w|, 0
  {
    w[k] == CloserOf(w[0]) && Nested(w[1..k]) && Nested(w[k + 1..])
  }

  ghost predicate NestedPrefix(w: string) {
    exists v: string :: Nested(w + v)
  }

  // ---------------------------------------------------------------- nesting, as a stack

  /** The scan's stack: closers pop whatever is on top, and are ignored when there is nothing. */
  function Stack(w: string): string {
    if w == [] then []
    else
      var below, c := Stack(w[..|w| - 1]), w[|w| - 1];
      if Opens(c) then below + [CloserOf(c)] else if below == [] then [] else below[..|below| - 1]
  }

  /** The strict stack: a closer must be the one on top. */
  ghost function Strict(w: string, st: string): Option<string>
    decreases |w|
  {
    if w == [] then Some(st)
    else if Opens(w[0]) then Strict(w[1..], st + [CloserOf(w[0])])
    else if st != [] && w[0] == st[|st| - 1] then Strict(w[1..], st[..|st| - 1])
    else None
  }

  function Reversed(t: string): string {
    if t == [] then [] else [t[|t| - 1]] + Reversed(t[..|t| - 1])
  }

  lemma {:induction false} StrictConcat(a: string, b: string, st: string)
    ensures Strict(a + b, st) == match Strict(a, st) case None => None case Some(mid) => Strict(b, mid)
    decreases |a|
  {
    if a == [] {
      assert a + b == b;
    } else {
      assert (a + b)[1..] == a[1..] + b;
      if Opens(a[0]) {
        StrictConcat(a[1..], b, st + [CloserOf(a[0])]);
      } else if st != [] && a[0] == st[|st| - 1] {
        StrictConcat(a[1..], b, st[..|st| - 1]);
      }
    }
  }

  /** A nested word leaves any stack as it was. */
  lemma {:induction false} NestedRuns(w: string, st: string)
    requires Nested(w)
    ensures Strict(w, st) == Some(st)
    decreases |w|
  {
    if w != [] {
      var k :| 0 < k < |w| && NestedAt(w, k);
      var c := CloserOf(w[0]);
      NestedRuns(w[1..k], st + [c]);
      NestedRuns(w[k + 1..], st);
      assert w[1..] == w[1..k] + ([c] + w[k + 1..]);
      StrictConcat(w[1..k], [c] + w[k + 1..], st + [c]);
      assert ([c] + w[k + 1..])[1..] == w[k + 1..] && (st + [c])[..|st|] == st;
    }
  }

  /** When a run empties the stack, the top is closed after a nested word. */
  lemma {:induction false} TopIsClosed(w: string, st: string, c: char) returns (k: nat)
    requires Closes(c) && Strict(w, st + [c]) == Some([])
    ensures k < |w| && Nested(w[..k]) && w[k] == c && Strict(w[k + 1..], st) == Some([])
    decreases |w|
  {
    assert (st + [c])[..|st|] == st;
    if Opens(w[0]) {
      var d := CloserOf(w[0]);
      var a := TopIsClosed(w[1..], st + [c], d);
      var rest := w[1..][a + 1..];
      assert rest == w[a + 2..];
      var b := TopIsClosed(rest, st, c);
      k := a + 2 + b;
      var word := w[..k];
      assert word[1..a + 1] == w[1..][..a] && word[a + 2..] == rest[..b];
      assert NestedAt(word, a + 1);
      assert w[k + 1..] == rest[b + 1..];
    } else {
      k := 0;
    }
  }

  lemma {:induction false} EmptiedIsNested(w: string)
    requires Strict(w, []) == Some([])
    ensures Nested(w)
    decreases |w|
  {
    if w != [] {
      assert [] + [CloserOf(w[0])] == [CloserOf(w[0])];
      var k := TopIsClosed(w[1..], [], CloserOf(w[0]));
      EmptiedIsNested(w[1..][k + 1..]);
      assert w[1..k + 1] == w[1..][..k] && w[k + 2..] == w[1..][k + 1..];
      assert NestedAt(w, k + 1);
    }
  }

  /** The grammar and the strict stack agree. */
  lemma NestedIff(w: string)
    ensures Nested(w) <==> Strict(w, []) == Some([])
  {
    if Nested(w) { NestedRuns(w, []); }
    if Strict(w, []) == Some([]) { EmptiedIsNested(w); }
  }

  /** On a properly nested prefix the scan's stack is the strict one. */
  lemma {:induction false} StackIsStrict(w: string)
    requires Strict(w, []).Some?
    ensures Strict(w, []) == Some(Stack(w)) && forall c :: c in Stack(w) ==> Closes(c)
  {
    if w != [] {
      var front, c := w[..|w| - 1], w[|w| - 1];
      assert w == front + [c];
      StrictConcat(front, [c], []);
      StackIsStrict(front);
      assert [c][1..] == [];
    }
  }

  lemma {:induction false} ClosersRun(st: string)
    requires forall c :: c in st ==> Closes(c)
    ensures Strict(Reversed(st), st) == Some([])
  {
    if st != [] {
      assert Closes(st[|st| - 1]);
      ClosersRun(st[..|st| - 1]);
      assert Reversed(st)[1..] == Reversed(st[..|st| - 1]);
    }
  }

  lemma {:induction false} OnlyClosers(v: string, st: string)
    requires (forall c :: c in v ==> Closes(c)) && Strict(v, st) == Some([])
    ensures v == Reversed(st)
  {
    if v != [] {
      assert Closes(v[0]);
      OnlyClosers(v[1..], st[..|st| - 1]);
    }
  }

  /** What the scan's stack holds is exactly what is missing, whenever anything could complete the word. */
  lemma MissingClosers(w: string)
    ensures Nested(w + Reversed(Stack(w))) <==> NestedPrefix(w)
    ensures NestedPrefix(w) ==> forall v: string :: Nested(w + v) && (forall c :: c in v ==> Closes(c)) ==>
            v == Reversed(Stack(w))
  {
    if NestedPrefix(w) {
      var v: string :| Nested(w + v);
      PrefixRuns(w, v);
      StackIsStrict(w);
      ClosersRun(Stack(w));
      StrictConcat(w, Reversed(Stack(w)), []);
      NestedIff(w + Reversed(Stack(w)));
      forall u: string | Nested(w + u) && (forall c :: c in u ==> Closes(c)) ensures u == Reversed(Stack(w)) {
        PrefixRuns(w, u);
        OnlyClosers(u, Stack(w));
      }
    }
  }

  lemma PrefixRuns(w: string, v: string)
    requires Nested(w + v)
    ensures Strict(w, []).Some? && Strict(v, Strict(w, []).value) == Some([])
  {
    NestedIff(w + v);
    StrictConcat(w, v, []);
  }

  // ---------------------------------------------------------------- trimming

  /** What `str.rstrip` removes; it is none of the characters the scan looks at. */
  ghost predicate BlankClass(blank: char -> bool) {
    !blank('"') && !blank('\\') && !blank('{') && !blank('}') && !blank('[') && !blank(']')
  }

  function TrimRight(t: string, drop: char -> bool): (r: string)
    ensures r <= t && (r == [] || !drop(r[|r| - 1]))
    ensures forall i :: |r| <= i < |t| ==> drop(t[i])
  {
    if t == [] || !drop(t[|t| - 1]) then t else TrimRight(t[..|t| - 1], drop)
  }

  function TrimLeft(t: string, drop: char -> bool): string {
    if t == [] || !drop(t[0]) then t else TrimLeft(t[1..], drop)
  }

  /** `rstrip()`, then `rstrip(",")`. */
  function Candidate(t: string, blank: char -> bool): (r: string)
    ensures r <= t && forall i :: |r| <= i < |t| ==> blank(t[i]) || t[i] == ','
  {
    TrimRight(TrimRight(t, blank), (c: char) => c == ',')
  }

  /** Cutting blanks and commas off the end: the cut is outside any string, and no bracket is lost. */
  lemma {:induction false} CutIsOutside(t: string, n: nat, blank: char -> bool)
    requires BlankClass(blank) && n <= |t| && !Lex(t).inString
    requires forall i :: n <= i < |t| ==> blank(t[i]) || t[i] == ','
    ensures !Lex(t[..n]).inString && Word(t[..n]) == Word(t)
    ensures forall i :: n <= i <= |t| ==> !Lex(t[..i]).inString
    decreases |t|
  {
    if n == |t| {
      assert t[..n] == t;
    } else {
      var front := t[..|t| - 1];
      CutIsOutside(front, n, blank);
      assert front[..n] == t[..n];
      forall i | n <= i <= |t| ensures !Lex(t[..i]).inString {
        if i == |t| { assert t[..i] == t; } else { assert front[..i] == t[..i]; }
      }
    }
  }

  lemma AppendOne(t: string, c: char)
    requires !Lex(t).inString && Closes(c)
    ensures !Lex(t + [c]).inString && Word(t + [c]) == Word(t) + [c]
  {
    assert (t + [c])[..|t|] == t;
  }

  lemma {:induction false} AppendClosers(t: string, v: string)
    requires !Lex(t).inString && forall c :: c in v ==> Closes(c)
    ensures !Lex(t + v).inString && Word(t + v) == Word(t) + v
  {
    hide Lex, Word;
    if v == [] {
      assert t + v == t;
    } else {
      var front, c := v[..|v| - 1], v[|v| - 1];
      assert Closes(c) && v == front + [c];
      AppendClosers(t, front);
      AppendOne(t + front, c);
      assert t + v == t + front + [c] && Word(t) + v == Word(t) + front + [c];
    }
  }

  // ---------------------------------------------------------------- the whole

  /** The text handed to the JSON parser for a tail that starts at the first brace. */
  function Repaired(tail: string, blank: char -> bool): string {
    Candidate(tail, blank) + Reversed(Stack(Word(tail)))
  }

  lemma {:induction false} StackHoldsClosers(w: string)
    ensures forall c :: c in Stack(w) ==> Closes(c)
    ensures forall c :: c in Reversed(Stack(w)) ==> Closes(c)
  {
    if w != [] { StackHoldsClosers(w[..|w| - 1]); }
    ReversedMembers(Stack(w));
  }

  lemma {:induction false} ReversedMembers(t: string)
    ensures forall c :: c in Reversed(t) <==> c in t
  {
    if t != [] {
      ReversedMembers(t[..|t| - 1]);
      assert t == t[..|t| - 1] + [t[|t| - 1]];
    }
  }

  /**
   For a tail that does not end in a string: the repaired text is properly nested if and only if the tail's brackets
   are a properly nested prefix; its brackets are the tail's plus the missing closers, and nothing is cut in a string.
   */
  lemma RepairNests(tail: string, blank: char -> bool)
    requires BlankClass(blank) && !Lex(tail).inString
    ensures Nested(Word(Repaired(tail, blank))) <==> NestedPrefix(Word(tail))
    ensures Word(Repaired(tail, blank)) == Word(tail) + Reversed(Stack(Word(tail)))
    ensures !Lex(Repaired(tail, blank)).inString && !Lex(Candidate(tail, blank)).inString
  {
    var kept := Candidate(tail, blank);
    assert tail[..|kept|] == kept;
    CutIsOutside(tail, |kept|, blank);
    StackHoldsClosers(Word(tail));
    AppendClosers(kept, Reversed(Stack(Word(tail))));
    MissingClosers(Word(tail));
  }

  /** The loop of the scan. */
  method Scan(t: string) returns (stack: string, inString: bool)
    ensures stack == Stack(Word(t)) && inString == Lex(t).inString
  {
    stack, inString := [], false;
    var escaped := false;
    for i := 0 to |t|
      invariant stack == Stack(Word(t[..i])) && Lexer(inString, escaped) == Lex(t[..i])
    {
      var c := t[i];
      WordStep(t, i);
      if inString {
        if escaped { escaped := false; } else if c == '\\' { escaped := true; } else if c == '"' { inString := false; }
      } else if c == '"' {
        inString := true;
      } else if Opens(c) {
        stack := stack + [CloserOf(c)];
      } else if Closes(c) && stack != [] {
        stack := stack[..|stack| - 1];
      }
    }
    assert t[..|t|] == t;
  }

  lemma WordStep(t: string, i: nat)
    requires i < |t|
    ensures Lex(t[..i + 1]) == LexStep(Lex(t[..i]), t[i])
    ensures var w, below := Word(t[..i]), Stack(Word(t[..i]));
            if Lex(t[..i]).inString || !(Opens(t[i]) || Closes(t[i])) then Word(t[..i + 1]) == w
            else
              && Word(t[..i + 1]) == w + [t[i]]
              && Stack(w + [t[i]]) ==
                 if Opens(t[i]) then below + [CloserOf(t[i])] else if below == [] then [] else below[..|below| - 1]
  {
    assert t[..i + 1][..i] == t[..i];
    assert (Word(t[..i]) + [t[i]])[..|Word(t[..i])|] == Word(t[..i]);
  }

  function Find(t: string, c: char): (k: int)
    ensures -1 <= k < |t| && (k >= 0 ==> t[k] == c && c !in t[..k]) && (k < 0 ==> c !in t)
  {
    if t == [] then -1 else if t[0] == c then 0
    else
      var k := Find(t[1..], c);
      if k < 0 then -1 else assert t[..k + 1] == [t[0]] + t[1..][..k]; k + 1
  }

  /** The part the scan looks at: from the first brace of the stripped text on. */
  function Tail(text: string, blank: char -> bool): Option<string> {
    var body := TrimRight(TrimLeft(text, blank), blank);
    var start := Find(body, '{');
    if start < 0 then None else Some(body[start..])
  }

  /** `salvage_truncated_json`, with the JSON parser as a parameter (None: it rejects the text). */
  method SalvageTruncated(text: string, blank: char -> bool,
      loads: string -> Option<Json.Value>) returns (r: Option<Json.Value>)
    ensures r.Some? <==>
              var tail := Tail(text, blank);
              && tail.Some? && !Lex(tail.value).inString && Stack(Word(tail.value)) != []
              && loads(Repaired(tail.value, blank)).Some? && loads(Repaired(tail.value, blank)).value.Object?
    ensures r.Some? ==> r == loads(Repaired(Tail(text, blank).value, blank))
  {
    hide Word, Stack, Lex, Candidate;
    var body := TrimRight(TrimLeft(text, blank), blank);
    var start := Find(body, '{');
    if start < 0 { return None; }
    var stack, inString := Scan(body[start..]);
    if inString || stack == [] { return None; }
    var candidate := Candidate(body[start..], blank);
    var result := loads(candidate + Reversed(stack));
    if result.None? || !result.value.Object? { return None; }
    return result;
  }
}
