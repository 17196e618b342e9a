/** `{{dotted.path}}` templates: finding them, resolving them, and substituting them in nested data. */
module Templates {
  import opened Wrappers
  import opened Json

  // ---------------------------------------------------------------- the pattern  {{ path }}

  /** What `str.isspace` and the pattern's `\s` accept. */
  predicate IsSpace(c: char) {
    var n := c as int;
    || 0x09 <= n <= 0x0D || 0x1C <= n <= 0x20 || n == 0x85 || n == 0xA0 || n == 0x1680
    || 0x2000 <= n <= 0x200A || n == 0x2028 || n == 0x2029 || n == 0x202F || n == 0x205F || n == 0x3000
  }

  predicate IsPathChar(c: char) {
    'A' <= c <= 'Z' || 'a' <= c <= 'z' || '0' <= c <= '9' || c == '_' || c == '.' || c == '-'
  }

  predicate AllSpaces(s: string) {
    forall i :: 0 <= i < |s| ==> IsSpace(s[i])
  }

  /** The first index from `i` on whose character is not a space. */
  function SkipSpaces(s: string, i: nat): (j: nat)
    requires i <= |s|
    ensures i <= j <= |s| && AllSpaces(s[i..j]) && (j < |s| ==> !IsSpace(s[j]))
    decreases |s| - i
  {
    if i < |s| && IsSpace(s[i]) then
      var j := SkipSpaces(s, i + 1);
      assert s[i..j] == [s[i]] + s[i + 1..j];
      j
    else i
  }

  /** The first index from `i` on whose character cannot be part of a path. */
  function SkipPath(s: string, i: nat): (j: nat)
    requires i <= |s|
    ensures i <= j <= |s| && (forall k :: i <= k < j ==> IsPathChar(s[k])) && (j < |s| ==> !IsPathChar(s[j]))
    decreases |s| - i
  {
    if i < |s| && IsPathChar(s[i]) then SkipPath(s, i + 1) else i
  }

  datatype Match = Match(path: string, end: nat)

  /** The template starting exactly at `i`, if there is one. */
  function MatchAt(s: string, i: nat): (m: Option<Match>)
    requires i <= |s|
    ensures m.Some? ==> i + 5 <= m.value.end <= |s|
  {
    if i + 2 <= |s| && s[i] == '{' && s[i + 1] == '{' then
      var a := SkipSpaces(s, i + 2);
      var b := SkipPath(s, a);
      var c := SkipSpaces(s, b);
      if a < b && c + 2 <= |s| && s[c] == '}' && s[c + 1] == '}' then Some(Match(s[a..b], c + 2)) else None
    else None
  }

  /** The written shape of a template: `{{`, spaces up to `a`, the path up to `b`, spaces up to `c`, `}}`. */
  ghost predicate IsTemplate(s: string, i: nat, a: nat, b: nat, c: nat) {
    && i + 2 <= a < b <= c && c + 2 <= |s|
    && s[i] == s[i + 1] == '{' && s[c] == s[c + 1] == '}'
    && (forall k :: i + 2 <= k < a ==> IsSpace(s[k]))
    && (forall k :: a <= k < b ==> IsPathChar(s[k]))
    && (forall k :: b <= k < c ==> IsSpace(s[k]))
  }

  lemma SkipSpacesStops(s: string, i: nat, j: nat)
    requires i <= j <= |s| && (forall k :: i <= k < j ==> IsSpace(s[k])) && (j < |s| ==> !IsSpace(s[j]))
    ensures SkipSpaces(s, i) == j
    decreases j - i
  {
  }

  lemma SkipPathStops(s: string, i: nat, j: nat)
    requires i <= j <= |s| && (forall k :: i <= k < j ==> IsPathChar(s[k])) && (j < |s| ==> !IsPathChar(s[j]))
    ensures SkipPath(s, i) == j
    decreases j - i
  {
  }

  /** The matcher finds the template that is written there, whole and unambiguously. */
  lemma MatchAtComplete(s: string, i: nat, a: nat, b: nat, c: nat)
    requires IsTemplate(s, i, a, b, c)
    ensures MatchAt(s, i) == Some(Match(s[a..b], c + 2))
  {
    SkipSpacesStops(s, i + 2, a);
    SkipPathStops(s, a, b);
    SkipSpacesStops(s, b, c);
  }

  /** Whatever the matcher finds is written there. */
  lemma MatchAtSound(s: string, i: nat)
    requires i <= |s| && MatchAt(s, i).Some?
    ensures exists a: nat, b: nat, c: nat :: IsTemplate(s, i, a, b, c) && MatchAt(s, i) == Some(Match(s[a..b], c + 2))
  {
    var a := SkipSpaces(s, i + 2);
    var b := SkipPath(s, a);
    var c := SkipSpaces(s, b);
    assert forall k :: i + 2 <= k < a ==> s[k] == s[i + 2..a][k - i - 2];
    assert forall k :: b <= k < c ==> s[k] == s[b..c][k - b];
    assert IsTemplate(s, i, a, b, c);
  }

  // ---------------------------------------------------------------- lookup

  /** `text.split(sep)`. */
  function Split(s: string, sep: char): (parts: seq<string>)
    ensures parts != []
  {
    if s == "" then [""]
    else if s[0] == sep then [""] + Split(s[1..], sep)
    else
      var rest := Split(s[1..], sep);
      [[s[0]] + rest[0]] + rest[1..]
  }

  predicate IsDigits(s: string) {
    s != "" && forall i :: 0 <= i < |s| ==> '0' <= s[i] <= '9'
  }

  function DigitsValue(s: string): nat
    requires forall i :: 0 <= i < |s| ==> '0' <= s[i] <= '9'
  {
    if s == "" then 0 else DigitsValue(s[..|s| - 1]) * 10 + (s[|s| - 1] as int - '0' as int)
  }

  /** One step of a dotted path: into a mapping by key or into a list by index. */
  function Descend(v: Value, part: string): Option<Value> {
    if v.Object? && part in v.fields then Some(v.fields[part])
    else if v.List? && IsDigits(part) && DigitsValue(part) < |v.items| then Some(v.items[DigitsValue(part)])
    else None
  }

  function Resolve(v: Value, parts: seq<string>): Option<Value> {
    if parts == [] then Some(v)
    else
      match Descend(v, parts[0])
      case None => None
      case Some(inner) => Resolve(inner, parts[1..])
  }

  /** The value a dotted path names in `context`; None is the source's TemplateError. */
  function Lookup(context: Value, path: string): Option<Value> {
    Resolve(context, Split(path, '.'))
  }

  /** `lookup`, as the source computes it, with a cursor. */
  method LookupCursor(context: Value, path: string) returns (r: Option<Value>)
    ensures r == Lookup(context, path)
  {
    var current := context;
    var parts := Split(path, '.');
    for k := 0 to |parts|
      invariant Resolve(current, parts[k..]) == Lookup(context, path)
    {
      match Descend(current, parts[k]) {
        case Some(inner) => current := inner;
        case None => return None;
      }
      assert parts[k..][1..] == parts[k + 1..];
    }
    assert parts[|parts|..] == [];
    r := Some(current);
  }

  // ---------------------------------------------------------------- references and rendering

  /** The paths of the templates in `s`, scanning left to right from `i` without overlap (`findall`). */
  function PathsFrom(s: string, i: nat): seq<string>
    requires i <= |s|
    decreases |s| - i
  {
    if i == |s| then []
    else
      match MatchAt(s, i)
      case Some(m) => [m.path] + PathsFrom(s, m.end)
      case None => PathsFrom(s, i + 1)
  }

  /** Every path mentioned anywhere inside `v`. */
  function References(v: Value): set<string> {
    match v
    case Str(s) => set p | p in PathsFrom(s, 0)
    case Object(fields) => set k, p | k in fields && p in References(fields[k]) :: p
    case List(items) => set k, p | 0 <= k < |items| && p in References(items[k]) :: p
    case _ => {}
  }

  /** `str(v)`; `text` stands for Python's rendering of everything that is not already a string. */
  function AsText(v: Value, text: Value -> string): string {
    if v.Str? then v.text else text(v)
  }

  /** `sub`: the text from `i` on with every template replaced by its value's text. */
  function Substitute(s: string, i: nat, context: Value, text: Value -> string): Option<string>
    requires i <= |s|
    decreases |s| - i
  {
    if i == |s| then Some("")
    else
      match MatchAt(s, i)
      case Some(m) =>
        (match (Lookup(context, m.path), Substitute(s, m.end, context, text))
         case (Some(v), Some(rest)) => Some(AsText(v, text) + rest)
         case _ => None)
      case None =>
        match Substitute(s, i + 1, context, text)
        case Some(rest) => Some([s[i]] + rest)
        case None => None
  }

  /** `s.strip()`, by its end points. */
  function StripStart(s: string): (i: nat)
    ensures i <= |s|
  {
    SkipSpaces(s, 0)
  }

  function StripEnd(s: string, from: nat): (j: nat)
    requires from <= |s|
    ensures from <= j <= |s| && AllSpaces(s[j..]) && (j > from ==> !IsSpace(s[j - 1]))
    decreases |s|
  {
    if from < |s| && IsSpace(s[|s| - 1]) then
      var j := StripEnd(s[..|s| - 1], from);
      assert s[j..] == s[..|s| - 1][j..] + [s[|s| - 1]];
      j
    else |s|
  }

  /** The path of a string that, stripped, is exactly one template (`fullmatch`). */
  function WholeTemplate(s: string): Option<string> {
    var i := StripStart(s);
    match MatchAt(s, i)
    case Some(m) => if m.end == StripEnd(s, i) then Some(m.path) else None
    case None => None
  }

  /** `render`: None is the source's TemplateError. */
  function Render(v: Value, context: Value, text: Value -> string): Option<Value> {
    match v
    case Str(s) =>
      (match WholeTemplate(s)
       case Some(path) => Lookup(context, path)
       case None =>
         match Substitute(s, 0, context, text)
         case Some(out) => Some(Str(out))
         case None => None)
    case Object(fields) =>
      var out := map k | k in fields :: Render(fields[k], context, text);
      if forall k :: k in out ==> out[k].Some? then Some(Object(map k | k in out :: out[k].value)) else None
    case List(items) =>
      var out := seq(|items|, i requires 0 <= i < |items| => Render(items[i], context, text));
      if forall i :: 0 <= i < |out| ==> out[i].Some? then
        Some(List(seq(|out|, i requires 0 <= i < |out| => out[i].value)))
      else None
    case _ => Some(v)
  }

  ghost predicate AllResolve(paths: set<string>, context: Value) {
    forall p :: p in paths ==> Lookup(context, p).Some?
  }

  lemma {:induction false} SubstituteSucceeds(s: string, i: nat, context: Value, text: Value -> string)
    requires i <= |s|
    ensures Substitute(s, i, context, text).Some? <==> AllResolve((set p | p in PathsFrom(s, i)), context)
    ensures PathsFrom(s, i) == [] ==> Substitute(s, i, context, text) == Some(s[i..])
    decreases |s| - i
  {
    if i < |s| {
      match MatchAt(s, i) {
        case Some(m) =>
          SubstituteSucceeds(s, m.end, context, text);
          assert PathsFrom(s, i) == [m.path] + PathsFrom(s, m.end);
          assert forall p :: p in PathsFrom(s, i) <==> p == m.path || p in PathsFrom(s, m.end);
        case None =>
          SubstituteSucceeds(s, i + 1, context, text);
          assert s[i..] == [s[i]] + s[i + 1..];
      }
    }
  }

  lemma {:induction false} NoPathsInSpaces(s: string, i: nat, j: nat)
    requires i <= j <= |s| && AllSpaces(s[i..j])
    ensures PathsFrom(s, i) == PathsFrom(s, j)
    decreases j - i
  {
    if i < j {
      assert IsSpace(s[i..j][0]) && s[i..j][0] == s[i];
      assert s[i + 1..j] == s[i..j][1..];
      NoPathsInSpaces(s, i + 1, j);
    }
  }

  /** A string that is one whole template mentions exactly that path. */
  lemma WholeTemplatePaths(s: string)
    requires WholeTemplate(s).Some?
    ensures PathsFrom(s, 0) == [WholeTemplate(s).value]
  {
    var i := StripStart(s);
    var m := MatchAt(s, i).value;
    NoPathsInSpaces(s, 0, i);
    NoPathsInSpaces(s, m.end, |s|);
    assert s[m.end..|s|] == s[m.end..];
    assert PathsFrom(s, i) == [m.path] + PathsFrom(s, m.end);
  }

  ghost predicate SucceedsExactly(v: Value, context: Value, text: Value -> string) {
    Render(v, context, text).Some? <==> AllResolve(References(v), context)
  }

  lemma ObjectSucceeds(fields: map<string, Value>, context: Value, text: Value -> string)
    requires forall k :: k in fields ==> SucceedsExactly(fields[k], context, text)
    ensures SucceedsExactly(Object(fields), context, text)
  {
    var v := Object(fields);
    assert forall k, p :: k in fields && p in References(fields[k]) ==> p in References(v);
    var out := map k | k in fields :: Render(fields[k], context, text);
    assert forall k :: k in fields ==> k in out && out[k] == Render(fields[k], context, text);
    assert forall k :: k in fields ==> SucceedsExactly(fields[k], context, text);
  }

  lemma ListSucceeds(items: seq<Value>, context: Value, text: Value -> string)
    requires forall k :: 0 <= k < |items| ==> SucceedsExactly(items[k], context, text)
    ensures SucceedsExactly(List(items), context, text)
  {
    var v := List(items);
    assert forall k, p :: 0 <= k < |items| && p in References(items[k]) ==> p in References(v);
    var out := seq(|items|, i requires 0 <= i < |items| => Render(items[i], context, text));
    assert forall k :: 0 <= k < |items| ==> out[k] == Render(items[k], context, text);
    assert forall k :: 0 <= k < |items| ==> SucceedsExactly(items[k], context, text);
  }

  lemma StringSucceeds(s: string, context: Value, text: Value -> string)
    ensures SucceedsExactly(Str(s), context, text)
  {
    hide Substitute, PathsFrom, WholeTemplate, Lookup;
    SubstituteSucceeds(s, 0, context, text);
    if WholeTemplate(s).Some? { WholeTemplatePaths(s); }
  }

  /** Rendering succeeds exactly when every path the value mentions resolves. */
  lemma {:induction false} RenderSucceeds(v: Value, context: Value, text: Value -> string)
    ensures Render(v, context, text).Some? <==> AllResolve(References(v), context)
    decreases v
  {
    match v {
      case Str(s) => StringSucceeds(s, context, text);
      case Object(fields) =>
        forall k | k in fields ensures SucceedsExactly(fields[k], context, text) {
          RenderSucceeds(fields[k], context, text);
        }
        ObjectSucceeds(fields, context, text);
      case List(items) =>
        forall k | 0 <= k < |items| ensures SucceedsExactly(items[k], context, text) {
          RenderSucceeds(items[k], context, text);
        }
        ListSucceeds(items, context, text);
      case _ =>
    }
  }

  lemma PathIsReferenced(s: string)
    requires PathsFrom(s, 0) != []
    ensures References(Str(s)) != {}
  {
    assert PathsFrom(s, 0)[0] in References(Str(s));
  }

  /** Data without templates renders to itself. */
  lemma {:induction false} RenderIdentity(v: Value, context: Value, text: Value -> string)
    requires References(v) == {}
    ensures Render(v, context, text) == Some(v)
    decreases v
  {
    match v {
      case Str(s) =>
        if PathsFrom(s, 0) != [] { PathIsReferenced(s); }
        assert s[0..] == s;
        SubstituteSucceeds(s, 0, context, text);
        if WholeTemplate(s).Some? { WholeTemplatePaths(s); }
      case Object(fields) =>
        forall k | k in fields ensures Render(fields[k], context, text) == Some(fields[k]) {
          assert forall p :: p in References(fields[k]) ==> p in References(v);
          RenderIdentity(fields[k], context, text);
        }
        var out := map k | k in fields :: Render(fields[k], context, text);
        assert (map k | k in out :: out[k].value) == fields;
      case List(items) =>
        forall k | 0 <= k < |items| ensures Render(items[k], context, text) == Some(items[k]) {
          assert forall p :: p in References(items[k]) ==> p in References(v);
          RenderIdentity(items[k], context, text);
        }
        var out := seq(|items|, i requires 0 <= i < |items| => Render(items[i], context, text));
        assert seq(|out|, i requires 0 <= i < |out| => out[i].value) == items;
      case _ =>
    }
  }

  // ---------------------------------------------------------------- what a rendered text says

  /** A string read as plain characters and holes; a hole remembers how it was written. */
  datatype Token = Plain(c: char) | Hole(path: string, raw: string)

  function Spelling(t: Token): string {
    match t case Plain(c) => [c] case Hole(_, raw) => raw
  }

  /** The token at `i` and where the next one starts. */
  function TokenAt(s: string, i: nat): (r: (Token, nat))
    requires i < |s|
    ensures i < r.1 <= |s| && Spelling(r.0) == s[i..r.1]
  {
    match MatchAt(s, i)
    case Some(m) => (Hole(m.path, s[i..m.end]), m.end)
    case None => (Plain(s[i]), i + 1)
  }

  function Tokens(s: string, i: nat): seq<Token>
    requires i <= |s|
    decreases |s| - i
  {
    if i == |s| then [] else var (t, j) := TokenAt(s, i); [t] + Tokens(s, j)
  }

  function Spelled(tokens: seq<Token>): string {
    if tokens == [] then "" else Spelling(tokens[0]) + Spelled(tokens[1..])
  }

  /** The tokens with every hole filled in, each in its own place. */
  function Filled(tokens: seq<Token>, fill: string -> string): string {
    if tokens == [] then ""
    else (match tokens[0] case Plain(c) => [c] case Hole(path, _) => fill(path)) + Filled(tokens[1..], fill)
  }

  lemma SliceSplits(s: string, i: nat, j: nat)
    requires i <= j <= |s|
    ensures s[i..] == s[i..j] + s[j..]
  {
  }

  lemma SpelledCons(t: Token, rest: seq<Token>)
    ensures Spelled([t] + rest) == Spelling(t) + Spelled(rest)
  {
    assert ([t] + rest)[1..] == rest;
  }

  /** Reading a string as tokens loses nothing. */
  lemma {:induction false} TokensSpell(s: string, i: nat)
    requires i <= |s|
    ensures Spelled(Tokens(s, i)) == s[i..]
    decreases |s| - i
  {
    if i < |s| {
      var (t, j) := TokenAt(s, i);
      TokensSpell(s, j);
      SpelledCons(t, Tokens(s, j));
      SliceSplits(s, i, j);
    }
  }

  /** What a hole becomes: the text of the value its path finds. */
  function FillFrom(context: Value, text: Value -> string): string -> string {
    (path: string) => match Lookup(context, path) case Some(v) => AsText(v, text) case None => ""
  }

  lemma FilledCons(t: Token, rest: seq<Token>, fill: string -> string)
    ensures Filled([t] + rest, fill) == (match t case Plain(c) => [c] case Hole(path, _) => fill(path))
            + Filled(rest, fill)
  {
    assert ([t] + rest)[1..] == rest;
  }

  /** A successful substitution is the text with each hole replaced by its value and nothing else moved. */
  lemma {:induction false} SubstituteFills(s: string, i: nat, context: Value, text: Value -> string)
    requires i <= |s| && Substitute(s, i, context, text).Some?
    ensures Substitute(s, i, context, text).value == Filled(Tokens(s, i), FillFrom(context, text))
    decreases |s| - i
  {
    hide Filled, MatchAt, Lookup, AsText;
    if i == |s| {
      NothingFilled(FillFrom(context, text));
    } else {
      var (t, j) := TokenAt(s, i);
      SubstituteFills(s, j, context, text);
      FilledCons(t, Tokens(s, j), FillFrom(context, text));
    }
  }

  lemma NothingFilled(fill: string -> string)
    ensures Filled([], fill) == ""
  {
  }

  lemma {:induction false} StripEndStops(s: string, from: nat, j: nat)
    requires from <= j <= |s| && (forall k :: j <= k < |s| ==> IsSpace(s[k])) && (j > from ==> !IsSpace(s[j - 1]))
    ensures StripEnd(s, from) == j
    decreases |s|
  {
    if j < |s| { StripEndStops(s[..|s| - 1], from, j); }
  }

  /** A string that is one template, up to surrounding blanks, renders to the value itself, type and all. */
  lemma WholeTemplateKeepsType(s: string, i: nat, a: nat, b: nat, c: nat, context: Value, text: Value -> string)
    requires IsTemplate(s, i, a, b, c)
    requires forall k :: 0 <= k < i || c + 2 <= k < |s| ==> IsSpace(s[k])
    ensures Render(Str(s), context, text) == Lookup(context, s[a..b])
  {
    SkipSpacesStops(s, 0, i);
    MatchAtComplete(s, i, a, b, c);
    StripEndStops(s, i, c + 2);
  }
}
