/**
 The incremental repository index. A pass reuses rows whose size and modification time did not move, keeps the
 symbols of files whose content hash did not move, and reparses the rest; it must leave the tables a pass from
 nothing would leave.
 */
module RepoIndex {
  import opened Wrappers

  datatype Stat = Stat(size: nat, mtime: int)

  /** A file met on the walk (ignored directories pruned): None where the operating system refuses. */
  datatype Entry = Entry(path: string, stat: Option<Stat>, content: Option<string>)

  datatype Row = Row(language: Option<string>, size: nat, hash: string, mtime: int)

  datatype Symbol = Symbol(kind: string, name: string, start: Option<int>, end: Option<int>, parent: Option<string>)

  /** The two tables, for one repository; a path without symbols has no entry in `symbols`. */
  datatype Index = Index(files: map<string, Row>, symbols: map<string, seq<Symbol>>)

  /** What the pass calls: file suffix table, content hash, parser. */
  datatype Tools = Tools(language: string -> Option<string>, hash: string -> string,
      extract: (string, string) -> seq<Symbol>)

  const MAX_FILE_SIZE := 1_000_000
  const RACY_NS := 2_000_000_000
  const SYMBOL_LANGUAGES := {"python", "typescript", "javascript", "rust", "c", "cpp"}
  const EMPTY := Index(map[], map[])

  predicate Indexable(e: Entry) {
    e.stat.Some? && e.stat.value.size <= MAX_FILE_SIZE
  }

  // ---------------------------------------------------------------- the symbol table of one file

  /** The unique index: missing line and parent count as -1 and the empty name. */
  function Key(s: Symbol): (string, string, int, string) {
    (s.kind, s.name, if s.start.Some? then s.start.value else -1, if s.parent.Some? then s.parent.value else "")
  }

  predicate Taken(rows: seq<Symbol>, s: Symbol) {
    exists i :: 0 <= i < |rows| && Key(rows[i]) == Key(s)
  }

  function Insert(rows: seq<Symbol>, s: Symbol): seq<Symbol> {
    if Taken(rows, s) then rows else rows + [s]
  }

  function Stored(symbols: seq<Symbol>): seq<Symbol> {
    if symbols == [] then [] else Insert(Stored(symbols[..|symbols| - 1]), symbols[|symbols| - 1])
  }

  /** No symbol is stored twice, and every symbol the parser found is stored or has its key taken. */
  lemma {:induction false} StoredOnce(symbols: seq<Symbol>)
    ensures forall i, j :: 0 <= i < j < |Stored(symbols)| ==> Key(Stored(symbols)[i]) != Key(Stored(symbols)[j])
    ensures forall i :: 0 <= i < |symbols| ==> Taken(Stored(symbols), symbols[i])
    ensures forall s :: s in Stored(symbols) ==> s in symbols
  {
    hide Key;
    if symbols != [] {
      var n := |symbols| - 1;
      StoredOnce(symbols[..n]);
      var before, rows := Stored(symbols[..n]), Stored(symbols);
      assert forall i :: 0 <= i < |before| ==> rows[i] == before[i];
      forall i | 0 <= i < |symbols| ensures Taken(rows, symbols[i]) {
        if i < n {
          assert symbols[i] == symbols[..n][i];
          var k :| 0 <= k < |before| && Key(before[k]) == Key(symbols[i]);
          assert Key(rows[k]) == Key(symbols[i]);
        } else if !Taken(before, symbols[n]) {
          assert Key(rows[|before|]) == Key(symbols[n]);
        }
      }
    }
  }

  // ---------------------------------------------------------------- what one file contributes

  function Fingerprint(t: Tools, e: Entry): string {
    if e.content.Some? then t.hash(e.content.value) else ""
  }

  function FreshRow(t: Tools, e: Entry): Row
    requires Indexable(e)
  {
    Row(t.language(e.path), e.stat.value.size, Fingerprint(t, e), e.stat.value.mtime)
  }

  function Extracted(t: Tools, e: Entry): seq<Symbol> {
    var language := t.language(e.path);
    if language.Some? && language.value in SYMBOL_LANGUAGES && e.content.Some?
    then t.extract(e.content.value, language.value) else []
  }

  function Parsed(t: Tools, e: Entry): seq<Symbol> {
    Stored(Extracted(t, e))
  }

  datatype Outcome = New | Changed | Unchanged | Touched

  predicate Reused(prev: Option<Row>, e: Entry, now: int)
    requires Indexable(e)
  {
    && prev.Some? && prev.value.size == e.stat.value.size && prev.value.mtime == e.stat.value.mtime
    && now - e.stat.value.mtime > RACY_NS
  }

  function Judge(t: Tools, prev: Option<Row>, e: Entry, now: int): Outcome
    requires Indexable(e)
  {
    if Reused(prev, e, now) then Unchanged
    else if prev.Some? && prev.value.hash == Fingerprint(t, e) then Touched
    else if prev.None? then New else Changed
  }

  function RowAfter(t: Tools, prev: Option<Row>, e: Entry, now: int): Row
    requires Indexable(e)
  {
    if Reused(prev, e, now) then prev.value else FreshRow(t, e)
  }

  function SymbolsAfter(t: Tools, prev: Option<Row>, had: seq<Symbol>, e: Entry, now: int): seq<Symbol>
    requires Indexable(e)
  {
    var o := Judge(t, prev, e, now);
    if o.Unchanged? || o.Touched? then had else Parsed(t, e)
  }

  // ---------------------------------------------------------------- whole tables

  ghost predicate Distinct(disk: seq<Entry>) {
    forall i, j :: 0 <= i < j < |disk| ==> disk[i].path != disk[j].path
  }

  /** The files of the first `k` entries that belong in the index, by path. */
  ghost function Visible(disk: seq<Entry>, k: nat): (m: map<string, Entry>)
    requires k <= |disk|
    ensures OnDisk(m)
    ensures forall p :: p in m ==> exists i :: 0 <= i < k && disk[i].path == p
  {
    if k == 0 then map[]
    else if Indexable(disk[k - 1]) then Visible(disk, k - 1)[disk[k - 1].path := disk[k - 1]]
    else Visible(disk, k - 1)
  }

  ghost predicate OnDisk(m: map<string, Entry>) {
    forall p :: p in m ==> Indexable(m[p]) && m[p].path == p
  }

  ghost function Find<V>(m: map<string, V>, p: string): Option<V> {
    if p in m then Some(m[p]) else None
  }

  ghost function Rows(symbols: map<string, seq<Symbol>>, p: string): seq<Symbol> {
    if p in symbols then symbols[p] else []
  }

  /** The row table once the files `m` were visited and nothing was removed yet. */
  ghost function FilesMid(t: Tools, was: Index, m: map<string, Entry>, now: int): map<string, Row>
    requires OnDisk(m)
  {
    map p | p in was.files.Keys + m.Keys :: if p in m then RowAfter(t, Find(was.files, p), m[p], now) else was.files[p]
  }

  ghost function RowsMid(t: Tools, was: Index, m: map<string, Entry>, now: int, p: string): seq<Symbol>
    requires OnDisk(m)
  {
    if p in m then SymbolsAfter(t, Find(was.files, p), Rows(was.symbols, p), m[p], now) else Rows(was.symbols, p)
  }

  ghost function SymbolsMid(t: Tools, was: Index, m: map<string, Entry>, now: int): map<string, seq<Symbol>>
    requires OnDisk(m)
  {
    map p | p in was.symbols.Keys + m.Keys && RowsMid(t, was, m, now, p) != [] :: RowsMid(t, was, m, now, p)
  }

  /** The tables after a whole pass: exactly the files on disk. */
  ghost function Pass(t: Tools, was: Index, m: map<string, Entry>, now: int): Index
    requires OnDisk(m)
  {
    Index(map p | p in m :: RowAfter(t, Find(was.files, p), m[p], now),
          map p | p in m && RowsMid(t, was, m, now, p) != [] :: RowsMid(t, was, m, now, p))
  }

  /** Indexing from nothing, with no notion of reuse. */
  ghost function Full(t: Tools, m: map<string, Entry>): Index
    requires OnDisk(m)
  {
    Index(map p | p in m :: FreshRow(t, m[p]), map p | p in m && Parsed(t, m[p]) != [] :: Parsed(t, m[p]))
  }

  lemma PassFromNothing(t: Tools, m: map<string, Entry>, now: int)
    requires OnDisk(m)
    ensures Pass(t, EMPTY, m, now) == Full(t, m)
  {
    var a, b := Pass(t, EMPTY, m, now), Full(t, m);
    forall p | p in m ensures RowsMid(t, EMPTY, m, now, p) == Parsed(t, m[p]) {
      hide Stored;
    }
    assert a.symbols == b.symbols;
    assert a.files == b.files;
  }

  // ---------------------------------------------------------------- incremental equals full, exactly when

  /** Stat and hash told the truth: a trusted stat means the same hash, the same hash the same symbols. */
  ghost predicate Honest(t: Tools, a: Entry, b: Entry, now: int) {
    && (a.stat == b.stat && b.stat.Some? && now - b.stat.value.mtime > RACY_NS ==>
       Fingerprint(t, a) == Fingerprint(t, b))
    && (Fingerprint(t, a) == Fingerprint(t, b) ==> Parsed(t, a) == Parsed(t, b))
  }

  ghost predicate HonestAll(t: Tools, m1: map<string, Entry>, m2: map<string, Entry>, now: int) {
    forall p :: p in m1 && p in m2 ==> Honest(t, m1[p], m2[p], now)
  }

  lemma FileExact(t: Tools, a: Entry, b: Entry, now: int)
    requires Indexable(a) && Indexable(b) && a.path == b.path
    ensures Honest(t, a, b, now) <==>
            && RowAfter(t, Some(FreshRow(t, a)), b, now) == FreshRow(t, b)
            && SymbolsAfter(t, Some(FreshRow(t, a)), Parsed(t, a), b, now) == Parsed(t, b)
  {
    hide Parsed, Fingerprint;
  }

  lemma FullHas(t: Tools, m: map<string, Entry>, p: string)
    requires OnDisk(m)
    ensures Find(Full(t, m).files, p) == if p in m then Some(FreshRow(t, m[p])) else None
    ensures Rows(Full(t, m).symbols, p) == if p in m then Parsed(t, m[p]) else []
  {
    hide Parsed, Fingerprint;
  }

  lemma PassHas(t: Tools, was: Index, m: map<string, Entry>, now: int, p: string)
    requires OnDisk(m)
    ensures Find(Pass(t, was, m, now).files, p) ==
            if p in m then Some(RowAfter(t, Find(was.files, p), m[p], now)) else None
    ensures Rows(Pass(t, was, m, now).symbols, p) == if p in m then RowsMid(t, was, m, now, p) else []
  {
    hide RowAfter, RowsMid;
  }

  /**
   A pass over `m2`, on an index that was exact for `m1`, is exact for `m2` if and only if no file in both kept a
   trusted size and time while its hash moved, or kept its hash while its symbols moved.
   */
  lemma PassExactIff(t: Tools, m1: map<string, Entry>, m2: map<string, Entry>, now: int)
    requires OnDisk(m1) && OnDisk(m2)
    ensures Pass(t, Full(t, m1), m2, now) == Full(t, m2) <==> HonestAll(t, m1, m2, now)
  {
    hide Parsed, Fingerprint, Full, Pass, RowAfter, SymbolsAfter, Honest, FreshRow;
    var got, want := Pass(t, Full(t, m1), m2, now), Full(t, m2);
    forall p | p in m2
      ensures p in m1 ==>
              (Honest(t, m1[p], m2[p], now) <==>
                  Find(got.files, p) == Find(want.files, p) && Rows(got.symbols, p) == Rows(want.symbols, p))
      ensures p !in m1 ==> Find(got.files, p) == Find(want.files, p) && Rows(got.symbols, p) == Rows(want.symbols, p)
    {
      FullHas(t, m1, p);
      FullHas(t, m2, p);
      PassHas(t, Full(t, m1), m2, now, p);
      if p in m1 { FileExact(t, m1[p], m2[p], now); } else { NewFile(t, m2[p], now); }
    }
    SameTables(t, Full(t, m1), m2, now);
  }

  lemma NewFile(t: Tools, e: Entry, now: int)
    requires Indexable(e)
    ensures RowAfter(t, None, e, now) == FreshRow(t, e) && SymbolsAfter(t, None, [], e, now) == Parsed(t, e)
  {
    hide Parsed;
  }

  /** Two tables over the same files are equal when they are equal file by file. */
  lemma SameTables(t: Tools, was: Index, m: map<string, Entry>, now: int)
    requires OnDisk(m)
    ensures var got, want := Pass(t, was, m, now), Full(t, m);
            got == want <==>
            forall p :: p in m ==>
                Find(got.files, p) == Find(want.files, p) && Rows(got.symbols, p) == Rows(want.symbols, p)
  {
    hide RowAfter, RowsMid, FreshRow, Parsed;
    var got, want := Pass(t, was, m, now), Full(t, m);
    if forall p :: p in m ==>
        Find(got.files, p) == Find(want.files, p) && Rows(got.symbols, p) == Rows(want.symbols, p) {
      assert got.files == want.files by {
        forall p | p in m ensures got.files[p] == want.files[p] { assert Find(got.files, p) == Find(want.files, p); }
      }
      assert got.symbols == want.symbols by {
        forall p | p in m
            ensures (p in got.symbols <==> p in want.symbols)
                    && (p in got.symbols ==> got.symbols[p] == want.symbols[p]) {
          assert Rows(got.symbols, p) == Rows(want.symbols, p);
        }
      }
    }
  }

  // ---------------------------------------------------------------- histories of passes

  /** What was on disk at a pass, and its clock. */
  datatype Round = Round(files: map<string, Entry>, now: int)

  ghost predicate RealRounds(rounds: seq<Round>) {
    forall k :: 0 <= k < |rounds| ==> OnDisk(rounds[k].files)
  }

  ghost function Indexed(t: Tools, rounds: seq<Round>): Index
    requires RealRounds(rounds)
  {
    if rounds == [] then EMPTY
    else
      var n := |rounds| - 1;
      Pass(t, Indexed(t, rounds[..n]), rounds[n].files, rounds[n].now)
  }

  ghost predicate ExactSoFar(t: Tools, rounds: seq<Round>, k: nat)
    requires RealRounds(rounds) && k < |rounds|
  {
    Indexed(t, rounds[..k + 1]) == Full(t, rounds[k].files)
  }

  ghost predicate HonestStep(t: Tools, rounds: seq<Round>, k: nat)
    requires k + 1 < |rounds|
  {
    HonestAll(t, rounds[k].files, rounds[k + 1].files, rounds[k + 1].now)
  }

  lemma Unfold(t: Tools, rounds: seq<Round>, k: nat)
    requires RealRounds(rounds) && k < |rounds|
    ensures Indexed(t, rounds[..k + 1]) ==
            Pass(t, if k == 0 then EMPTY else Indexed(t, rounds[..k]), rounds[k].files, rounds[k].now)
  {
    hide Pass;
    assert rounds[..k + 1][..k] == rounds[..k];
  }

  /**
   Over any history of disk changes and passes: every pass leaves the tables of a full index if and only if every
   two consecutive passes saw honest files.
   */
  lemma {:induction false} HistoryExactIff(t: Tools, rounds: seq<Round>)
    requires RealRounds(rounds)
    ensures (forall k :: 0 <= k < |rounds| ==> ExactSoFar(t, rounds, k)) <==>
            (forall k :: 0 <= k < |rounds| - 1 ==> HonestStep(t, rounds, k))
  {
    hide Pass, Full, HonestAll;
    forall k | 0 <= k < |rounds| ensures k == 0 ==> ExactSoFar(t, rounds, k)
      ensures k > 0 && ExactSoFar(t, rounds, k - 1) ==> (ExactSoFar(t, rounds, k) <==> HonestStep(t, rounds, k - 1))
    {
      Unfold(t, rounds, k);
      if k == 0 {
        PassFromNothing(t, rounds[0].files, rounds[0].now);
      } else {
        PassExactIff(t, rounds[k - 1].files, rounds[k].files, rounds[k].now);
      }
    }
    if forall k :: 0 <= k < |rounds| - 1 ==> HonestStep(t, rounds, k) {
      forall k | 0 <= k < |rounds| ensures ExactSoFar(t, rounds, k) { ExactUpTo(t, rounds, k); }
    } else {
      var k :| 0 <= k < |rounds| - 1 && !HonestStep(t, rounds, k);
      assert !(ExactSoFar(t, rounds, k) && ExactSoFar(t, rounds, k + 1));
    }
  }

  lemma {:induction false} ExactUpTo(t: Tools, rounds: seq<Round>, k: nat)
    requires RealRounds(rounds) && k < |rounds|
    requires forall j :: 0 <= j < |rounds| - 1 ==> HonestStep(t, rounds, j)
    ensures ExactSoFar(t, rounds, k)
  {
    hide Pass, Full, HonestAll;
    Unfold(t, rounds, k);
    if k == 0 {
      PassFromNothing(t, rounds[0].files, rounds[0].now);
    } else {
      ExactUpTo(t, rounds, k - 1);
      assert HonestStep(t, rounds, k - 1);
      PassExactIff(t, rounds[k - 1].files, rounds[k].files, rounds[k].now);
    }
  }

  /** Files are readable, and over the whole history one path with one size and time has one content. */
  ghost predicate Stable(rounds: seq<Round>) {
    forall j, k, p :: 0 <= j < |rounds| && 0 <= k < |rounds| && p in rounds[j].files && p in rounds[k].files ==>
      && rounds[j].files[p].content.Some?
      && (rounds[j].files[p].stat == rounds[k].files[p].stat ==>
         rounds[j].files[p].content == rounds[k].files[p].content)
  }

  /** No two contents that one path had at two passes of the history share a hash. */
  ghost predicate Injective(t: Tools, rounds: seq<Round>) {
    forall j, k, p :: 0 <= j < |rounds| && 0 <= k < |rounds| && p in rounds[j].files && p in rounds[k].files ==>
      NoCollision(t, rounds[j].files[p], rounds[k].files[p])
  }

  ghost predicate NoCollision(t: Tools, a: Entry, b: Entry) {
    a.content.Some? && b.content.Some? && t.hash(a.content.value) == t.hash(b.content.value) ==> a.content == b.content
  }

  /** Incremental refines full indexing: after any history of stable files the tables are those of a fresh pass. */
  lemma RefinesFullIndex(t: Tools, rounds: seq<Round>, now: int)
    requires RealRounds(rounds) && rounds != [] && Stable(rounds) && Injective(t, rounds)
    ensures var last := rounds[|rounds| - 1].files;
            Indexed(t, rounds) == Full(t, last) == Pass(t, EMPTY, last, now)
  {
    hide Full, Pass, Parsed, NoCollision;
    forall k | 0 <= k < |rounds| - 1 ensures HonestStep(t, rounds, k) {
      forall p | p in rounds[k].files && p in rounds[k + 1].files
        ensures Honest(t, rounds[k].files[p], rounds[k + 1].files[p], rounds[k + 1].now)
      {
        SameContent(t, rounds[k].files[p], rounds[k + 1].files[p]);
      }
    }
    ExactUpTo(t, rounds, |rounds| - 1);
    assert rounds[..|rounds| - 1 + 1] == rounds;
    PassFromNothing(t, rounds[|rounds| - 1].files, now);
  }

  lemma SameContent(t: Tools, a: Entry, b: Entry)
    requires NoCollision(t, a, b) && a.content.Some? && b.content.Some? && a.path == b.path
    ensures Fingerprint(t, a) == Fingerprint(t, b) <==> a.content == b.content
    ensures a.content == b.content ==> Parsed(t, a) == Parsed(t, b)
  {
    hide Stored;
  }

  /** A file whose hash moved behind an old, unmoved stat (a silent edit, or unreadable before) goes stale. */
  lemma SilentEditGoesStale(t: Tools, a: Entry, b: Entry, now: int)
    requires Indexable(b) && a.path == b.path && a.stat == b.stat && now - b.stat.value.mtime > RACY_NS
    requires Fingerprint(t, a) != Fingerprint(t, b)
    ensures Pass(t, Full(t, map[a.path := a]), map[b.path := b], now) != Full(t, map[b.path := b])
  {
    PassExactIff(t, map[a.path := a], map[b.path := b], now);
    assert !Honest(t, map[a.path := a][a.path], map[b.path := b][a.path], now);
  }

  /** A second pass over the same files reparses nothing and changes nothing. */
  lemma WarmPass(t: Tools, m: map<string, Entry>, now: int)
    requires OnDisk(m)
    ensures Pass(t, Full(t, m), m, now) == Full(t, m)
    ensures forall p :: p in m ==> var o := Judge(t, Find(Full(t, m).files, p), m[p], now); o.Unchanged? || o.Touched?
  {
    PassExactIff(t, m, m, now);
    forall p | p in m ensures var o := Judge(t, Find(Full(t, m).files, p), m[p], now); o.Unchanged? || o.Touched? {
      FullHas(t, m, p);
    }
  }

  // ---------------------------------------------------------------- the pass itself

  /** How many of the first `k` files came out as `o`. */
  ghost function Tally(t: Tools, files: map<string, Row>, disk: seq<Entry>, now: int, k: nat, o: Outcome): nat
    requires k <= |disk|
  {
    if k == 0 then 0
    else Tally(t, files, disk, now, k - 1, o) + Hit(t, files, disk[k - 1], now, o)
  }

  ghost function Hit(t: Tools, files: map<string, Row>, e: Entry, now: int, o: Outcome): nat {
    if Indexable(e) && Judge(t, Find(files, e.path), e, now) == o then 1 else 0
  }

  lemma OneHit(t: Tools, files: map<string, Row>, e: Entry, now: int)
    ensures Hit(t, files, e, now, New) + Hit(t, files, e, now, Changed) + Hit(t, files, e, now, Unchanged)
          + Hit(t, files, e, now, Touched) == if Indexable(e) then 1 else 0
  {
    hide Judge, Indexable;
  }

  lemma OneMoreVisible(disk: seq<Entry>, k: nat)
    requires Distinct(disk) && k < |disk|
    ensures |Visible(disk, k + 1)| == |Visible(disk, k)| + if Indexable(disk[k]) then 1 else 0
  {
    hide Indexable;
    NotYetVisible(disk, k);
  }

  ghost function SymbolTally(t: Tools, files: map<string, Row>, disk: seq<Entry>, now: int, k: nat): nat
    requires k <= |disk|
  {
    if k == 0 then 0
    else SymbolTally(t, files, disk, now, k - 1) +
         if Indexable(disk[k - 1]) && Judge(t, Find(files, disk[k - 1].path), disk[k - 1], now) in {New, Changed}
         then |Extracted(t, disk[k - 1])| else 0
  }

  lemma NotYetVisible(disk: seq<Entry>, k: nat)
    requires Distinct(disk) && k < |disk|
    ensures disk[k].path !in Visible(disk, k)
  {
  }

  lemma NothingYet(t: Tools, files: map<string, Row>, disk: seq<Entry>, now: int)
    ensures forall o :: Tally(t, files, disk, now, 0, o) == 0
    ensures |Visible(disk, 0)| == 0
  {
  }

  lemma TallyStep(t: Tools, files: map<string, Row>, disk: seq<Entry>, now: int, k: nat, o: Outcome)
    requires 0 < k <= |disk|
    ensures Tally(t, files, disk, now, k, o) == Tally(t, files, disk, now, k - 1, o)
            + Hit(t, files, disk[k - 1], now, o)
  {
    hide Hit;
  }

  /** Every file seen is counted once. */
  lemma {:induction false} TalliesCover(t: Tools, files: map<string, Row>, disk: seq<Entry>, now: int, k: nat)
    requires Distinct(disk) && k <= |disk|
    ensures Tally(t, files, disk, now, k, New) + Tally(t, files, disk, now, k, Changed)
          + Tally(t, files, disk, now, k, Unchanged) + Tally(t, files, disk, now, k, Touched) == |Visible(disk, k)|
  {
    hide Hit, Distinct, Indexable, Visible, Tally;
    if k == 0 {
      NothingYet(t, files, disk, now);
    } else {
      forall o ensures Tally(t, files, disk, now, k, o) == Tally(t, files, disk, now, k - 1, o)
          + Hit(t, files, disk[k - 1], now, o) {
        TallyStep(t, files, disk, now, k, o);
      }
      TalliesCover(t, files, disk, now, k - 1);
      OneMoreVisible(disk, k - 1);
      OneHit(t, files, disk[k - 1], now);
    }
  }

  /** The pass's counters after `k` entries. */
  ghost predicate Counts(t: Tools, files: map<string, Row>, disk: seq<Entry>, now: int, k: nat,
                         added: nat, changed: nat, reused: nat, touched: nat, reparsed: nat)
    requires k <= |disk|
  {
    && added == Tally(t, files, disk, now, k, New) && changed == Tally(t, files, disk, now, k, Changed)
    && reused == Tally(t, files, disk, now, k, Unchanged) && touched == Tally(t, files, disk, now, k, Touched)
    && reparsed == SymbolTally(t, files, disk, now, k)
  }

  lemma CountsStart(t: Tools, files: map<string, Row>, disk: seq<Entry>, now: int)
    ensures Counts(t, files, disk, now, 0, 0, 0, 0, 0, 0) && Visible(disk, 0) == map[]
  {
  }

  lemma CountsMeans(t: Tools, files: map<string, Row>, disk: seq<Entry>, now: int, k: nat,
                    added: nat, changed: nat, reused: nat, touched: nat, reparsed: nat)
    requires k <= |disk| && Counts(t, files, disk, now, k, added, changed, reused, touched, reparsed)
    ensures added == Tally(t, files, disk, now, k, New) && changed == Tally(t, files, disk, now, k, Changed)
    ensures reused == Tally(t, files, disk, now, k, Unchanged) && touched == Tally(t, files, disk, now, k, Touched)
    ensures reparsed == SymbolTally(t, files, disk, now, k)
  {
    hide Tally, SymbolTally;
  }

  lemma CountsStep(t: Tools, files: map<string, Row>, disk: seq<Entry>, now: int, k: nat,
                   added: nat, changed: nat, reused: nat, touched: nat, reparsed: nat)
    requires k < |disk| && Counts(t, files, disk, now, k, added, changed, reused, touched, reparsed)
    ensures var e := disk[k];
            if !Indexable(e) then Counts(t, files, disk, now, k + 1, added, changed, reused, touched, reparsed)
            else
              match Judge(t, Find(files, e.path), e, now)
              case New => Counts(t, files, disk, now, k + 1, added + 1, changed, reused, touched,
                  reparsed + |Extracted(t, e)|)
              case Changed => Counts(t, files, disk, now, k + 1, added, changed + 1, reused, touched,
                  reparsed + |Extracted(t, e)|)
              case Unchanged => Counts(t, files, disk, now, k + 1, added, changed, reused + 1, touched, reparsed)
              case Touched => Counts(t, files, disk, now, k + 1, added, changed, reused, touched + 1, reparsed)
  {
    hide Judge, Indexable, Extracted;
  }

  lemma VisibleStep(disk: seq<Entry>, k: nat)
    requires k < |disk|
    ensures OnDisk(Visible(disk, k)) && OnDisk(Visible(disk, k + 1))
    ensures Visible(disk, k + 1) ==
            if Indexable(disk[k]) then Visible(disk, k)[disk[k].path := disk[k]] else Visible(disk, k)
  {
    hide Indexable;
  }

  /** The symbol table with one file's symbols exchanged. */
  ghost function Replaced(symbols: map<string, seq<Symbol>>, path: string,
      rows: seq<Symbol>): map<string, seq<Symbol>> {
    if rows == [] then symbols - {path} else symbols[path := rows]
  }

  lemma FilesStep(t: Tools, was: Index, m: map<string, Entry>, e: Entry, now: int)
    requires OnDisk(m) && Indexable(e) && e.path !in m
    ensures var row := RowAfter(t, Find(was.files, e.path), e, now);
            FilesMid(t, was, m[e.path := e], now) == FilesMid(t, was, m, now)[e.path := row]
  {
    hide RowAfter;
  }

  lemma SymbolsStep(t: Tools, was: Index, m: map<string, Entry>, e: Entry, now: int)
    requires OnDisk(m) && Indexable(e) && e.path !in m
    ensures var rows, mid := SymbolsAfter(t, Find(was.files, e.path), Rows(was.symbols, e.path), e, now),
            SymbolsMid(t, was, m, now);
            && Rows(mid, e.path) == Rows(was.symbols, e.path)
            && SymbolsMid(t, was, m[e.path := e], now) == Replaced(mid, e.path, rows)
  {
    hide SymbolsAfter;
    var m2 := m[e.path := e];
    var rows, mid := SymbolsAfter(t, Find(was.files, e.path), Rows(was.symbols, e.path), e, now),
        SymbolsMid(t, was, m, now);
    forall p | p != e.path ensures RowsMid(t, was, m2, now, p) == RowsMid(t, was, m, now, p) { }
    assert RowsMid(t, was, m2, now, e.path) == rows;
    var want, got := SymbolsMid(t, was, m2, now), Replaced(mid, e.path, rows);
    assert want.Keys == got.Keys;
    assert want == got;
  }

  /** Dropping what was not seen turns the intermediate tables into the pass's result. */
  lemma DropUnseen(t: Tools, was: Index, m: map<string, Entry>, now: int)
    requires OnDisk(m) && was.symbols.Keys <= was.files.Keys
    ensures var gone := was.files.Keys - m.Keys;
            Index(FilesMid(t, was, m, now) - gone, SymbolsMid(t, was, m, now) - gone) == Pass(t, was, m, now)
  {
    hide RowAfter, SymbolsAfter;
    var gone, out := was.files.Keys - m.Keys, Pass(t, was, m, now);
    assert (FilesMid(t, was, m, now) - gone) == out.files;
    assert (SymbolsMid(t, was, m, now) - gone).Keys == out.symbols.Keys;
    assert (SymbolsMid(t, was, m, now) - gone) == out.symbols;
  }

  datatype Summary = Summary(files: nat, added: nat, changed: nat, removed: nat, reused: nat, touched: nat,
      symbols: nat)

  /** The repository's rows of the two tables. */
  class Tables {
    var files: map<string, Row>
    var symbols: map<string, seq<Symbol>>

    /** Symbols are stored only for indexed files, and no empty group is. */
    ghost predicate Valid()
      reads this
    {
      symbols.Keys <= files.Keys && forall p :: p in symbols ==> symbols[p] != []
    }

    ghost function Contents(): Index
      reads this
    {
      Index(files, symbols)
    }

    constructor ()
      ensures Valid() && Contents() == EMPTY
    {
      files, symbols := map[], map[];
    }

    /** Replace one file's symbols: delete, then insert each unless its key is taken. */
    method Reparse(path: string, found: seq<Symbol>)
      modifies `symbols
      ensures symbols == Replaced(old(symbols), path, Stored(found))
    {
      symbols := symbols - {path};
      for i := 0 to |found|
        invariant symbols == Replaced(old(symbols), path, Stored(found[..i]))
      {
        assert found[..i + 1][..i] == found[..i];
        var rows := if path in symbols then symbols[path] else [];
        assert rows == Stored(found[..i]);
        if !Taken(rows, found[i]) {
          symbols := symbols[path := rows + [found[i]]];
          assert symbols == old(symbols)[path := rows + [found[i]]];
        }
      }
      assert found[..|found|] == found;
    }

    /** What the pass does with one file, given the rows known when it began. */
    method Visit(t: Tools, known: map<string, Row>, e: Entry, now: int) returns (o: Outcome, count: nat)
      requires Indexable(e)
      requires e.path in known ==> Find(files, e.path) == Find(known, e.path)
      modifies this
      ensures o == Judge(t, Find(known, e.path), e, now)
      ensures count == if o.New? || o.Changed? then |Extracted(t, e)| else 0
      ensures files == old(files)[e.path := RowAfter(t, Find(known, e.path), e, now)]
      ensures symbols == if o.New? || o.Changed? then Replaced(old(symbols), e.path, Parsed(t, e)) else old(symbols)
    {
      hide Stored, Fingerprint, Extracted, Replaced;
      var prev := if e.path in known then Some(known[e.path]) else None;
      if Reused(prev, e, now) {
        assert files == files[e.path := prev.value];
        return Unchanged, 0;
      }
      var row := FreshRow(t, e);
      files := files[e.path := row];
      if prev.Some? && prev.value.hash == row.hash { return Touched, 0; }
      var found := Extracted(t, e);
      Reparse(e.path, found);
      return if prev.None? then New else Changed, |found|;
    }

    /** One pass over the files of the walk. */
    method IndexRepo(t: Tools, disk: seq<Entry>, now: int) returns (r: Summary)
      requires Valid() && Distinct(disk)
      modifies this
      ensures Valid() && Contents() == Pass(t, old(Contents()), Visible(disk, |disk|), now)
      ensures r.files == |Visible(disk, |disk|)| == r.added + r.changed + r.reused + r.touched
      ensures r.added == Tally(t, old(files), disk, now, |disk|, New)
              && r.changed == Tally(t, old(files), disk, now, |disk|, Changed)
      ensures r.reused == Tally(t, old(files), disk, now, |disk|, Unchanged)
              && r.touched == Tally(t, old(files), disk, now, |disk|, Touched)
      ensures r.removed == |old(files).Keys - Visible(disk, |disk|).Keys|
              && r.symbols == SymbolTally(t, old(files), disk, now, |disk|)
    {
      hide FilesMid, SymbolsMid, Pass, RowsMid, Parsed, Fingerprint, Judge, Replaced, Distinct, RowAfter, Extracted,
          Indexable, Tally, SymbolTally, Visible, Counts, OnDisk;
      ghost var was := Contents();
      var known := files;
      var seen: set<string> := {};
      var added, changed, reused, touched, reparsed := 0, 0, 0, 0, 0;
      MidStart(t, was, now);
      CountsStart(t, known, disk, now);
      for i := 0 to |disk|
        invariant seen == Visible(disk, i).Keys
        invariant files == FilesMid(t, was, Visible(disk, i), now)
                  && symbols == SymbolsMid(t, was, Visible(disk, i), now)
        invariant Counts(t, known, disk, now, i, added, changed, reused, touched, reparsed)
      {
        var e := disk[i];
        CountsStep(t, known, disk, now, i, added, changed, reused, touched, reparsed);
        VisibleStep(disk, i);
        if Indexable(e) {
          NotYetVisible(disk, i);
          MidStep(t, was, Visible(disk, i), e, now);
          seen := seen + {e.path};
          var o, count := Visit(t, known, e, now);
          reparsed := reparsed + count;
          match o {
            case New => added := added + 1;
            case Changed => changed := changed + 1;
            case Unchanged => reused := reused + 1;
            case Touched => touched := touched + 1;
          }
        }
      }
      TalliesCover(t, known, disk, now, |disk|);
      CountsMeans(t, known, disk, now, |disk|, added, changed, reused, touched, reparsed);
      var gone := known.Keys - seen;
      DropUnseen(t, was, Visible(disk, |disk|), now);
      Forget(gone);
      PassIsValid(t, was, Visible(disk, |disk|), now);
      r := Summary(|seen|, added, changed, |gone|, reused, touched, reparsed);
    }

    /** The removal loop: rows and symbols of the files that were not seen. */
    method Forget(gone: set<string>)
      modifies this
      ensures files == old(files) - gone && symbols == old(symbols) - gone
    {
      var left := gone;
      while left != {}
        invariant left <= gone
        invariant files == old(files) - (gone - left) && symbols == old(symbols) - (gone - left)
      {
        var p :| p in left;
        symbols := symbols - {p};
        files := files - {p};
        left := left - {p};
      }
    }
  }

  lemma MidStart(t: Tools, was: Index, now: int)
    requires forall p :: p in was.symbols ==> was.symbols[p] != []
    ensures FilesMid(t, was, map[], now) == was.files && SymbolsMid(t, was, map[], now) == was.symbols
  {
    assert FilesMid(t, was, map[], now).Keys == was.files.Keys;
    assert SymbolsMid(t, was, map[], now).Keys == was.symbols.Keys;
  }

  /** Visiting one more file moves the intermediate tables one file on. */
  lemma MidStep(t: Tools, was: Index, m: map<string, Entry>, e: Entry, now: int)
    requires OnDisk(m) && Indexable(e) && e.path !in m
    ensures var o, mid := Judge(t, Find(was.files, e.path), e, now), SymbolsMid(t, was, m, now);
            && (e.path in was.files ==> Find(FilesMid(t, was, m, now), e.path) == Find(was.files, e.path))
            && FilesMid(t, was, m[e.path := e], now) ==
               FilesMid(t, was, m, now)[e.path := RowAfter(t, Find(was.files, e.path), e, now)]
            && SymbolsMid(t, was, m[e.path := e], now) == if o.New? || o.Changed?
               then Replaced(mid, e.path, Parsed(t, e)) else mid
  {
    hide RowAfter, SymbolsMid, Parsed, Judge;
    FilesStep(t, was, m, e, now);
    SymbolsStep(t, was, m, e, now);
    var mid, rows := SymbolsMid(t, was, m, now), Rows(was.symbols, e.path);
    NoEmptyGroups(t, was, m, now);
    if rows == [] { assert mid - {e.path} == mid; } else { assert mid[e.path := rows] == mid; }
  }

  lemma NoEmptyGroups(t: Tools, was: Index, m: map<string, Entry>, now: int)
    requires OnDisk(m)
    ensures forall p :: p in SymbolsMid(t, was, m, now) ==> SymbolsMid(t, was, m, now)[p] != []
  {
    hide RowsMid;
  }

  lemma PassIsValid(t: Tools, was: Index, m: map<string, Entry>, now: int)
    requires OnDisk(m)
    ensures var out := Pass(t, was, m, now);
            out.symbols.Keys <= out.files.Keys && forall p :: p in out.symbols ==> out.symbols[p] != []
  {
    hide RowAfter, RowsMid;
  }
}
