/**
 The append-only migration ledger: one JSON object a line, appended under a lock by stores that may
 crash half way through a line, and read back by skipping whatever does not parse.
 */
module MigrationLedger {
  import opened Wrappers

  // ---------------------------------------------------------------- which lines parse

  datatype Mode = Start | Outside | InString | Escape | AfterString | Complete | Broken

  /** Where a reader of JSON objects stands: its mode and how many brackets are open. */
  datatype Reader = Reader(mode: Mode, depth: nat)

  predicate IsJsonBlank(c: char) {
    c in {' ', '\t', '\r'}
  }

  function Close(depth: nat): Reader {
    if depth <= 1 then Reader(Complete, 0) else Reader(Outside, depth - 1)
  }

  /** One more character.  It follows strings, escapes and brackets; that is enough to tell torn and joined lines. */
  function Next(r: Reader, c: char): Reader {
    match r.mode
    case Start => if IsJsonBlank(c) then r else if c == '{' then Reader(Outside, 1) else Reader(Broken, 0)
    case Outside =>
      if c == '{' || c == '[' then Reader(Outside, r.depth + 1)
      else if c == '}' || c == ']' then Close(r.depth)
      else if c == '"' then Reader(InString, r.depth)
      else r
    case InString => if c == '"' then Reader(AfterString, r.depth) else if c == '\\' then Reader(Escape, r.depth) else r
    case Escape => if c in {'"', '\\', '/', 'b', 'f', 'n', 'r', 't', 'u'} then Reader(InString, r.depth) else Reader(Broken, 0)
    case AfterString =>
      if c == ',' || c == ':' then Reader(Outside, r.depth)
      else if c == '}' || c == ']' then Close(r.depth)
      else if IsJsonBlank(c) then r
      else Reader(Broken, 0)
    case Complete => if IsJsonBlank(c) then r else Reader(Broken, 0)
    case Broken => r
  }

  function Read(r: Reader, text: string): Reader
    decreases text
  {
    if text == "" then r else Read(Next(r, text[0]), text[1..])
  }

  const START := Reader(Start, 0)

  predicate Parses(line: string) {
    Read(START, line).mode == Complete
  }

  /** What JSON.stringify makes of a ledger record. */
  predicate IsRecord(text: string) {
    && Parses(text) && '\n' !in text
    && |text| > 2 && text[0] == '{' && text[1] == '"' && ('a' <= text[2] <= 'z') && text[|text| - 1] == '}'
  }

  /** A line that is begun, or spoilt: no record written behind it on the same line can be read. */
  predicate Spoilt(r: Reader) {
    r.mode == Broken || (r.mode in {Outside, InString, Escape, AfterString} && r.depth > 0)
  }

  lemma {:induction false} ReadInTwo(r: Reader, a: string, b: string)
    ensures Read(r, a + b) == Read(Read(r, a), b)
    decreases a
  {
    if a == "" {
      assert a + b == b;
    } else {
      assert (a + b)[1..] == a[1..] + b;
      ReadInTwo(Next(r, a[0]), a[1..], b);
    }
  }

  lemma {:induction false} BrokenStays(r: Reader, text: string)
    requires r.mode == Broken
    ensures Read(r, text) == r
  {
    if text != "" {
      BrokenStays(r, text[1..]);
    }
  }

  /** The same text read inside open brackets, as long as it does not break. */
  predicate Shifted(outer: Reader, inner: Reader, d: nat) {
    match inner.mode
    case Broken => false
    case Start => outer == Reader(Outside, d)
    case Complete => outer == Reader(Outside, d)
    case _ => outer == Reader(inner.mode, inner.depth + d) && inner.depth > 0
  }

  lemma {:induction false} ReadShifted(outer: Reader, inner: Reader, d: nat, text: string)
    requires Shifted(outer, inner, d) && d > 0 && Read(inner, text).mode != Broken
    ensures Shifted(Read(outer, text), Read(inner, text), d)
    decreases text
  {
    if text != "" {
      if Next(inner, text[0]).mode == Broken {
        BrokenStays(Next(inner, text[0]), text[1..]);
      }
      ReadShifted(Next(outer, text[0]), Next(inner, text[0]), d, text[1..]);
    }
  }

  /** Any beginning of a record reads without breaking, and anything but the whole leaves brackets open. */
  lemma {:induction false} BeginningOfRecord(text: string, k: nat)
    requires IsRecord(text) && 0 < k <= |text|
    ensures Read(START, text[..k]).mode == Complete || Spoilt(Read(START, text[..k]))
    ensures Read(START, text[..k]).mode != Broken
  {
    assert text == text[..k] + text[k..];
    ReadInTwo(START, text[..k], text[k..]);
    if Read(START, text[..k]).mode == Broken {
      BrokenStays(Read(START, text[..k]), text[k..]);
    }
    OpensFirst(text[..k]);
  }

  lemma {:induction false} StaysOpen(r: Reader, text: string)
    requires Spoilt(r) || r.mode == Complete
    ensures Spoilt(Read(r, text)) || Read(r, text).mode == Complete
    decreases text
  {
    if text != "" {
      StaysOpen(Next(r, text[0]), text[1..]);
    }
  }

  lemma {:induction false} OpensFirst(text: string)
    requires text != "" && text[0] == '{'
    ensures Spoilt(Read(START, text)) || Read(START, text).mode == Complete
  {
    StaysOpen(Next(START, text[0]), text[1..]);
  }

  /** Inside a string the quote of the first key closes the string, and its first letter breaks the line. */
  lemma {:induction false} ReadKeyInString(r: Reader, part: string)
    requires r.mode == InString && r.depth > 0 && part != "" && part[0] == '{'
    requires |part| > 1 ==> part[1] == '"'
    requires |part| > 2 ==> 'a' <= part[2] <= 'z'
    ensures Spoilt(Read(r, part))
  {
    var rest := part[1..];
    assert Read(r, part) == Read(r, rest);
    if rest != "" {
      var more := rest[1..];
      assert Read(r, rest) == Read(Reader(AfterString, r.depth), more);
      if more != "" {
        assert more[0] == part[2];
        BrokenStays(Next(Reader(AfterString, r.depth), more[0]), more[1..]);
      }
    }
  }

  /** Behind a line that is begun, spoilt or complete, no beginning of a record ever completes. */
  lemma {:induction false} JoinedIsSpoilt(r: Reader, text: string, k: nat)
    requires (Spoilt(r) || r.mode == Complete) && IsRecord(text) && 0 < k <= |text|
    ensures Spoilt(Read(r, text[..k]))
  {
    var part := text[..k];
    if r.mode == Outside {
      BeginningOfRecord(text, k);
      ReadShifted(r, START, r.depth, part);
    } else if r.mode == InString {
      ReadKeyInString(r, part);
    } else {
      BrokenStays(Next(r, part[0]), part[1..]);
    }
  }

  // ---------------------------------------------------------------- lines

  /** The file cut at its newlines; the last line is the one not yet terminated. */
  function Lines(file: string): (lines: seq<string>)
    ensures |lines| > 0
  {
    if file == "" then [""]
    else
      var rest := Lines(file[1..]);
      if file[0] == '\n' then [""] + rest else [[file[0]] + rest[0]] + rest[1..]
  }

  /** More text on the last line. */
  function Extended(lines: seq<string>, text: string): (extended: seq<string>)
    requires |lines| > 0
    ensures |extended| == |lines|
  {
    lines[..|lines| - 1] + [lines[|lines| - 1] + text]
  }

  lemma {:induction false} ExtendedBehindLine(line: string, rest: seq<string>, text: string)
    requires |rest| > 0
    ensures Extended([line] + rest, text) == [line] + Extended(rest, text)
  {
  }

  lemma {:induction false} ExtendedBehindUnit(c: char, rest: seq<string>, text: string)
    requires |rest| > 0
    ensures Extended([[c] + rest[0]] + rest[1..], text) == [[c] + Extended(rest, text)[0]] + Extended(rest, text)[1..]
  {
    if |rest| == 1 {
      assert ([c] + rest[0]) + text == [c] + (rest[0] + text);
    }
  }

  lemma {:induction false} LinesOfAppended(file: string, text: string)
    requires '\n' !in text
    ensures Lines(file + text) == Extended(Lines(file), text)
  {
    if file == "" {
      assert file + text == text;
      LineOfText(text);
    } else {
      var rest := Lines(file[1..]);
      assert (file + text)[0] == file[0] && (file + text)[1..] == file[1..] + text;
      LinesOfAppended(file[1..], text);
      ExtendedBehindLine("", rest, text);
      ExtendedBehindUnit(file[0], rest, text);
    }
  }

  lemma {:induction false} LineOfText(text: string)
    requires '\n' !in text
    ensures Lines(text) == [text]
  {
    if text != "" {
      LineOfText(text[1..]);
      assert [text[0]] + text[1..] == text;
    }
  }

  lemma {:induction false} LinesOfTerminated(file: string)
    ensures Lines(file + "\n") == Lines(file) + [""]
  {
    if file == "" {
      assert file + "\n" == "\n";
    } else {
      assert (file + "\n")[1..] == file[1..] + "\n";
      LinesOfTerminated(file[1..]);
    }
  }

  // ---------------------------------------------------------------- records by key

  /** Later lines win. */
  function RecordsOf(lines: seq<string>, keyOf: string -> string): map<string, string> {
    if lines == [] then map[]
    else
      var last := lines[|lines| - 1];
      var before := RecordsOf(lines[..|lines| - 1], keyOf);
      if Parses(last) then before[keyOf(last) := last] else before
  }

  /** A line that can be read, under its key. */
  predicate Holds(lines: seq<string>, i: nat, keyOf: string -> string, key: string) {
    i < |lines| && Parses(lines[i]) && keyOf(lines[i]) == key
  }

  ghost predicate OneLineAKey(lines: seq<string>, keyOf: string -> string) {
    forall i: nat, j: nat, key :: Holds(lines, i, keyOf, key) && Holds(lines, j, keyOf, key) ==> i == j
  }

  /** What holds of the file whoever appended to it, and however far they got. */
  ghost predicate Sane(lines: seq<string>, keyOf: string -> string) {
    && |lines| > 0
    && OneLineAKey(lines, keyOf)
    && (var tail := lines[|lines| - 1]; tail == "" || Parses(tail) || Spoilt(Read(START, tail)))
  }

  lemma {:induction false} FoundIsOnALine(lines: seq<string>, keyOf: string -> string, key: string)
    ensures key in RecordsOf(lines, keyOf) <==> exists i: nat :: Holds(lines, i, keyOf, key)
    ensures key in RecordsOf(lines, keyOf) ==>
      exists i: nat :: Holds(lines, i, keyOf, key) && lines[i] == RecordsOf(lines, keyOf)[key]
  {
    if lines != [] {
      var before := lines[..|lines| - 1];
      FoundIsOnALine(before, keyOf, key);
      assert forall i: nat :: Holds(before, i, keyOf, key) ==> Holds(lines, i, keyOf, key) && lines[i] == before[i];
      assert forall i: nat :: Holds(lines, i, keyOf, key) ==> Holds(before, i, keyOf, key) || i == |before|;
      if Parses(lines[|before|]) && keyOf(lines[|before|]) == key {
        assert Holds(lines, |before|, keyOf, key);
      }
    }
  }

  /** With one line a key, a record on a line is what a search for its key finds. */
  lemma {:induction false} LineIsFound(lines: seq<string>, keyOf: string -> string, i: nat)
    requires OneLineAKey(lines, keyOf) && i < |lines| && Parses(lines[i])
    ensures keyOf(lines[i]) in RecordsOf(lines, keyOf) && RecordsOf(lines, keyOf)[keyOf(lines[i])] == lines[i]
  {
    FoundIsOnALine(lines, keyOf, keyOf(lines[i]));
    assert Holds(lines, i, keyOf, keyOf(lines[i]));
  }

  /** All terminated lines are still there. */
  ghost predicate Grew(before: seq<string>, after: seq<string>) {
    && 0 < |before| <= |after|
    && after[..|before| - 1] == before[..|before| - 1]
  }

  /** The lines after a record, or a beginning of it, was written at the end. */
  function Written(lines: seq<string>, text: string, terminated: bool): seq<string>
    requires |lines| > 0
  {
    lines[..|lines| - 1] + [lines[|lines| - 1] + text] + if terminated then [""] else []
  }

  /** The last line after a write: begun, broken or complete, and complete only if it was empty before. */
  lemma {:induction false} TailAfterWrite(tail: string, text: string, k: nat)
    requires tail == "" || Parses(tail) || Spoilt(Read(START, tail))
    requires IsRecord(text) && 0 < k <= |text|
    ensures Parses(tail + text[..k]) || Spoilt(Read(START, tail + text[..k]))
    ensures Parses(tail + text[..k]) ==> tail == ""
    ensures tail == "" && k == |text| ==> tail + text[..k] == text
  {
    ReadInTwo(START, tail, text[..k]);
    if tail == "" {
      assert tail + text[..k] == text[..k];
      BeginningOfRecord(text, k);
    } else {
      JoinedIsSpoilt(Read(START, tail), text, k);
    }
  }

  lemma {:induction false} CompleteOrBroken(r: Reader, text: string)
    requires r.mode == Complete || r.mode == Broken
    ensures Read(r, text).mode == Complete || Read(r, text).mode == Broken
    decreases text
  {
    if text != "" {
      CompleteOrBroken(Next(r, text[0]), text[1..]);
    }
  }

  /** A proper beginning of a record never reads as a record. */
  lemma {:induction false} ProperBeginningIsNoRecord(text: string, k: nat)
    requires IsRecord(text) && k < |text|
    ensures !Parses(text[..k])
  {
    if Parses(text[..k]) {
      var n := |text| - 1;
      assert text == text[..n] + [text[n]] && text[..n] == text[..k] + text[k..n];
      ReadInTwo(START, text[..n], [text[n]]);
      ReadInTwo(START, text[..k], text[k..n]);
      CompleteOrBroken(Read(START, text[..k]), text[k..n]);
    }
  }

  function Tail(lines: seq<string>): string
    requires |lines| > 0
  {
    lines[|lines| - 1]
  }

  /** The records on terminated lines, which no write can touch. */
  function Kept(lines: seq<string>, keyOf: string -> string): map<string, string>
    requires |lines| > 0
  {
    RecordsOf(lines[..|lines| - 1], keyOf)
  }

  /**
   A write keeps one line a key and all terminated lines.  The record itself can be found afterwards
   exactly when it was written in full onto an empty line; behind a torn or unterminated line it is lost,
   and so is the record that line may have held.
   */
  lemma {:induction false} WriteKeepsSane(lines: seq<string>, keyOf: string -> string, text: string, k: nat, terminated: bool)
    requires Sane(lines, keyOf) && IsRecord(text) && 0 < k <= |text| && (terminated ==> k == |text|)
    requires keyOf(text) !in RecordsOf(lines, keyOf)
    ensures var after := Written(lines, text[..k], terminated);
      && Sane(after, keyOf) && Grew(lines, after)
      && RecordsOf(after, keyOf) == (if Tail(lines) == "" && k == |text| then Kept(lines, keyOf)[keyOf(text) := text] else Kept(lines, keyOf))
  {
    var init, tail, line := lines[..|lines| - 1], Tail(lines), Tail(lines) + text[..k];
    var after := Written(lines, text[..k], terminated);
    TailAfterWrite(tail, text, k);
    if k < |text| {
      ProperBeginningIsNoRecord(text, k);
      assert tail == "" ==> line == text[..k];
    }
    var full := init + [line];
    assert full[..|init|] == init && after == full + if terminated then [""] else [];
    if terminated {
      assert after[..|full|] == full;
    }
    OneLineAKeyAfterWrite(lines, keyOf, text, line, terminated);
  }

  lemma {:induction false} OneLineAKeyAfterWrite(
      lines: seq<string>, keyOf: string -> string, text: string, line: string, terminated: bool)
    requires |lines| > 0 && OneLineAKey(lines, keyOf) && keyOf(text) !in RecordsOf(lines, keyOf)
    requires Parses(line) ==> line == text
    ensures OneLineAKey(lines[..|lines| - 1] + [line] + if terminated then [""] else [], keyOf)
  {
    FoundIsOnALine(lines, keyOf, keyOf(text));
    var n := |lines| - 1;
    var after := lines[..n] + [line] + if terminated then [""] else [];
    assert !Parses("");
    forall i: nat, j: nat, key | Holds(after, i, keyOf, key) && Holds(after, j, keyOf, key) ensures i == j {
      assert i < n ==> Holds(lines, i, keyOf, key);
      assert j < n ==> Holds(lines, j, keyOf, key);
    }
  }

  /** A record on a terminated line stays where it is and is found for ever. */
  lemma {:induction false} TerminatedIsFoundForEver(before: seq<string>, after: seq<string>, keyOf: string -> string, i: nat)
    requires Sane(after, keyOf) && Grew(before, after) && i < |before| - 1 && Parses(before[i])
    ensures after[i] == before[i]
    ensures keyOf(before[i]) in RecordsOf(after, keyOf) && RecordsOf(after, keyOf)[keyOf(before[i])] == before[i]
  {
    assert after[..|before| - 1][i] == before[..|before| - 1][i];
    LineIsFound(after, keyOf, i);
  }

  lemma {:induction false} GrewIsTransitive(a: seq<string>, b: seq<string>, c: seq<string>)
    requires Grew(a, b) && Grew(b, c)
    ensures Grew(a, c)
  {
    assert c[..|a| - 1] == c[..|b| - 1][..|a| - 1];
    assert b[..|a| - 1] == b[..|b| - 1][..|a| - 1];
  }

  // ---------------------------------------------------------------- the file and its stores

  /** A missing file reads like an empty one. */
  class LedgerFile {
    var content: string

    constructor ()
      ensures content == ""
    {
      content := "";
    }
  }

  /** One of any number of stores on the same file; `keyOf` is the content key of a record. */
  class FileObservationMigrationStore {
    const ledger: LedgerFile
    const keyOf: string -> string
    var cache: map<string, string>

    constructor (ledger: LedgerFile, keyOf: string -> string)
      ensures this.ledger == ledger && this.keyOf == keyOf
    {
      this.ledger, this.keyOf, cache := ledger, keyOf, map[];
    }

    method Reload()
      modifies this
      ensures cache == RecordsOf(Lines(ledger.content), keyOf)
    {
      cache := map[];
      var lines := Lines(ledger.content);
      var i := 0;
      while i < |lines|
        invariant 0 <= i <= |lines|
        invariant cache == RecordsOf(lines[..i], keyOf)
      {
        assert lines[..i + 1][..i] == lines[..i];
        if Parses(lines[i]) {
          cache := cache[keyOf(lines[i]) := lines[i]];
        }
        i := i + 1;
      }
      assert lines[..i] == lines;
    }

    method Find(key: string) returns (r: Option<string>)
      modifies this
      ensures r == var records := RecordsOf(Lines(ledger.content), keyOf); if key in records then Some(records[key]) else None
    {
      Reload();
      return if key in cache then Some(cache[key]) else None;
    }

    /** The whole of an append runs under the ledger's lock; a crash may leave any beginning of the line. */
    method Append(text: string) returns (crashed: bool)
      requires IsRecord(text) && Sane(Lines(ledger.content), keyOf)
      modifies this, ledger
      ensures Sane(Lines(ledger.content), keyOf) && Grew(Lines(old(ledger.content)), Lines(ledger.content))
      ensures keyOf(text) in RecordsOf(Lines(old(ledger.content)), keyOf) ==> ledger.content == old(ledger.content)
      ensures keyOf(text) !in RecordsOf(Lines(old(ledger.content)), keyOf) ==>
        && (!crashed ==> ledger.content == old(ledger.content) + text + "\n"
                         && Lines(ledger.content) == Written(Lines(old(ledger.content)), text, true))
        && (ledger.content != old(ledger.content) ==>
              || RecordsOf(Lines(ledger.content), keyOf) == Kept(Lines(old(ledger.content)), keyOf)
              || RecordsOf(Lines(ledger.content), keyOf) == Kept(Lines(old(ledger.content)), keyOf)[keyOf(text) := text])
      ensures !crashed ==> (keyOf(text) in RecordsOf(Lines(ledger.content), keyOf) <==>
        keyOf(text) in RecordsOf(Lines(old(ledger.content)), keyOf) || Tail(Lines(old(ledger.content))) == "")
      ensures !crashed && Tail(Lines(old(ledger.content))) == "" ==> Tail(Lines(ledger.content)) == ""
    {
      Reload();
      if keyOf(text) in cache {
        crashed := *;
        return;
      }
      KeptHasNoMore(Lines(ledger.content), keyOf, keyOf(text));
      if * {
        var k: int := *;
        if 0 < k <= |text| {
          AppendedInPart(ledger.content, keyOf, text, k);
          ledger.content := ledger.content + text[..k];
        }
        return true;
      }
      AppendedInFull(ledger.content, keyOf, text);
      ledger.content := ledger.content + text + "\n";
      cache := cache[keyOf(text) := text];
      return false;
    }
  }

  lemma {:induction false} AppendedInPart(content: string, keyOf: string -> string, text: string, k: nat)
    requires Sane(Lines(content), keyOf) && IsRecord(text) && 0 < k <= |text| && keyOf(text) !in RecordsOf(Lines(content), keyOf)
    ensures var lines, after := Lines(content), Lines(content + text[..k]);
      && Sane(after, keyOf) && Grew(lines, after)
      && RecordsOf(after, keyOf) == (if Tail(lines) == "" && k == |text| then Kept(lines, keyOf)[keyOf(text) := text] else Kept(lines, keyOf))
  {
    LinesOfAppended(content, text[..k]);
    assert Lines(content + text[..k]) == Written(Lines(content), text[..k], false);
    WriteKeepsSane(Lines(content), keyOf, text, k, false);
  }

  lemma {:induction false} AppendedInFull(content: string, keyOf: string -> string, text: string)
    requires Sane(Lines(content), keyOf) && IsRecord(text) && keyOf(text) !in RecordsOf(Lines(content), keyOf)
    ensures var lines, after := Lines(content), Lines(content + text + "\n");
      && after == Written(lines, text, true) && Sane(after, keyOf) && Grew(lines, after) && Tail(after) == ""
      && RecordsOf(after, keyOf) == (if Tail(lines) == "" then Kept(lines, keyOf)[keyOf(text) := text] else Kept(lines, keyOf))
  {
    LinesOfAppended(content, text);
    LinesOfTerminated(content + text);
    assert text[..|text|] == text;
    assert Lines(content + text + "\n") == Written(Lines(content), text, true);
    WriteKeepsSane(Lines(content), keyOf, text, |text|, true);
  }

  lemma {:induction false} KeptHasNoMore(lines: seq<string>, keyOf: string -> string, key: string)
    requires |lines| > 0 && key !in RecordsOf(lines, keyOf)
    ensures key !in Kept(lines, keyOf)
  {
  }

  // ---------------------------------------------------------------- the runner

  /** A source asset, known by the record a deterministic projector makes of it. */
  datatype Asset = Asset(record: string, corrupted: bool)

  predicate Projected(assets: seq<Asset>) {
    forall i :: 0 <= i < |assets| ==> IsRecord(assets[i].record)
  }

  /** Assets with one key have one record. */
  predicate Consistent(assets: seq<Asset>, keyOf: string -> string) {
    forall i, j :: 0 <= i < j < |assets| && keyOf(assets[i].record) == keyOf(assets[j].record) ==> assets[i].record == assets[j].record
  }

  /** Under the keys of the inventory the ledger holds nothing but what the inventory's own assets give. */
  ghost predicate OnlyFrom(records: map<string, string>, assets: seq<Asset>, keyOf: string -> string) {
    forall i :: 0 <= i < |assets| && keyOf(assets[i].record) in records ==> records[keyOf(assets[i].record)] == assets[i].record
  }

  ghost predicate OnlyAdded(before: map<string, string>, after: map<string, string>, key: string, record: string) {
    forall k :: k in after ==> (k in before && after[k] == before[k]) || (k == key && after[k] == record)
  }

  /** One migration that is not cut short, on the lines of a ledger: the result, and the lines afterwards. */
  function StepOf(lines: seq<string>, asset: Asset, keyOf: string -> string): (string, seq<string>)
    requires |lines| > 0
  {
    var records, key := RecordsOf(lines, keyOf), keyOf(asset.record);
    (if !asset.corrupted && key in records then records[key] else asset.record,
     if key in records then lines else Written(lines, asset.record, true))
  }

  /** The migrations of an inventory, one after the other. */
  function RunOf(lines: seq<string>, assets: seq<Asset>, keyOf: string -> string): (run: (seq<string>, seq<string>))
    requires |lines| > 0
    ensures |run.0| == |assets| && |run.1| > 0
  {
    if assets == [] then ([], lines)
    else
      var before := RunOf(lines, assets[..|assets| - 1], keyOf);
      var step := StepOf(before.1, assets[|assets| - 1], keyOf);
      (before.0 + [step.0], step.1)
  }

  lemma {:induction false} RunNext(lines: seq<string>, assets: seq<Asset>, n: nat, keyOf: string -> string)
    requires |lines| > 0 && n < |assets|
    ensures var before := RunOf(lines, assets[..n], keyOf);
      var step := StepOf(before.1, assets[n], keyOf);
      RunOf(lines, assets[..n + 1], keyOf) == (before.0 + [step.0], step.1)
    ensures RecordsIn(assets[..n + 1]) == RecordsIn(assets[..n]) + [assets[n].record]
  {
    assert assets[..n + 1][..n] == assets[..n];
  }

  /** Return what the ledger has for the asset, or record and return it; a corrupted source is never answered from the ledger. */
  method Migrate(store: FileObservationMigrationStore, asset: Asset, dryRun: bool) returns (r: Option<string>)
    requires IsRecord(asset.record) && Sane(Lines(store.ledger.content), store.keyOf)
    modifies store, store.ledger
    ensures Migrated(Lines(old(store.ledger.content)), Lines(store.ledger.content), asset, store.keyOf)
    ensures var before := RecordsOf(Lines(old(store.ledger.content)), store.keyOf);
      r.Some? ==> r.value == if !asset.corrupted && store.keyOf(asset.record) in before then before[store.keyOf(asset.record)] else asset.record
    ensures r.Some? && !dryRun ==> Durable(Lines(old(store.ledger.content)), Lines(store.ledger.content), asset, store.keyOf)
    ensures r.Some? && !dryRun ==> (r.value, Lines(store.ledger.content)) == StepOf(Lines(old(store.ledger.content)), asset, store.keyOf)
    ensures dryRun ==> store.ledger.content == old(store.ledger.content)
  {
    ghost var before := Lines(store.ledger.content);
    KeptIsPart(before, store.keyOf);
    StepKeepsSane(before, asset, store.keyOf);
    if !asset.corrupted {
      var existing := store.Find(store.keyOf(asset.record));
      if existing.Some? {
        return existing;
      }
    }
    if !dryRun {
      var crashed := store.Append(asset.record);
      if crashed {
        return None;
      }
    }
    return Some(asset.record);
  }

  lemma {:induction false} KeptIsPart(lines: seq<string>, keyOf: string -> string)
    requires Sane(lines, keyOf)
    ensures forall k :: k in Kept(lines, keyOf) ==> k in RecordsOf(lines, keyOf) && RecordsOf(lines, keyOf)[k] == Kept(lines, keyOf)[k]
  {
    var init := lines[..|lines| - 1];
    forall k | k in Kept(lines, keyOf) ensures k in RecordsOf(lines, keyOf) && RecordsOf(lines, keyOf)[k] == Kept(lines, keyOf)[k] {
      FoundIsOnALine(init, keyOf, k);
      var i: nat :| Holds(init, i, keyOf, k) && init[i] == RecordsOf(init, keyOf)[k];
      LineIsFound(lines, keyOf, i);
    }
  }

  lemma {:induction false} AppendedKeeps(lines: seq<string>, keyOf: string -> string)
    requires Sane(lines, keyOf) && Tail(lines) == ""
    ensures RecordsOf(lines, keyOf) == Kept(lines, keyOf)
  {
  }

  function RecordsIn(assets: seq<Asset>): seq<string> {
    seq(|assets|, i requires 0 <= i < |assets| => assets[i].record)
  }

  /** What one migration does to the ledger. */
  ghost predicate Migrated(before: seq<string>, after: seq<string>, asset: Asset, keyOf: string -> string) {
    && Sane(after, keyOf) && Grew(before, after)
    && OnlyAdded(RecordsOf(before, keyOf), RecordsOf(after, keyOf), keyOf(asset.record), asset.record)
  }

  /** On an empty last line the record is there afterwards, and nothing is gone. */
  ghost predicate Durable(before: seq<string>, after: seq<string>, asset: Asset, keyOf: string -> string)
    requires |before| > 0 && |after| > 0
  {
    Tail(before) == "" ==>
      && Tail(after) == "" && keyOf(asset.record) in RecordsOf(after, keyOf)
      && RecordsOf(before, keyOf).Keys <= RecordsOf(after, keyOf).Keys
  }

  /** The ledger has every asset. */
  ghost predicate Covers(records: map<string, string>, assets: seq<Asset>, keyOf: string -> string) {
    forall k :: 0 <= k < |assets| ==> keyOf(assets[k].record) in records
  }

  lemma {:induction false} MigratedOne(
      before: map<string, string>, after: map<string, string>, assets: seq<Asset>, keyOf: string -> string, i: nat)
    requires Consistent(assets, keyOf) && OnlyFrom(before, assets, keyOf) && i < |assets|
    requires OnlyAdded(before, after, keyOf(assets[i].record), assets[i].record)
    ensures OnlyFrom(after, assets, keyOf)
  {
    forall j | 0 <= j < |assets| && keyOf(assets[j].record) in after
      ensures after[keyOf(assets[j].record)] == assets[j].record
    {
      if j < i {
        assert keyOf(assets[j].record) == keyOf(assets[i].record) ==> assets[j].record == assets[i].record;
      } else if i < j {
        assert keyOf(assets[i].record) == keyOf(assets[j].record) ==> assets[i].record == assets[j].record;
      }
    }
  }

  /** Where a run over the inventory stands after `i` assets, whatever the inventory and the ledger it began with. */
  ghost predicate Progress(
      lines0: seq<string>, lines: seq<string>, assets: seq<Asset>, i: nat, results: seq<string>,
      keyOf: string -> string)
  {
    && |lines0| > 0 && i <= |assets| && Sane(lines, keyOf) && Grew(lines0, lines)
    && (results, lines) == RunOf(lines0, assets[..i], keyOf)
  }

  lemma {:induction false} ProgressNext(
      lines0: seq<string>, lines: seq<string>, after: seq<string>, assets: seq<Asset>, i: nat, results: seq<string>, result: string,
      keyOf: string -> string)
    requires Progress(lines0, lines, assets, i, results, keyOf) && i < |assets|
    requires Sane(after, keyOf) && Grew(lines, after) && (result, after) == StepOf(lines, assets[i], keyOf)
    ensures Progress(lines0, after, assets, i + 1, results + [result], keyOf)
  {
    RunNext(lines0, assets, i, keyOf);
    GrewIsTransitive(lines0, lines, after);
  }

  /** Migrate a whole inventory; a crash ends the run wherever it is. */
  method MigrateAll(store: FileObservationMigrationStore, assets: seq<Asset>) returns (r: Option<seq<string>>)
    requires Projected(assets) && Sane(Lines(store.ledger.content), store.keyOf)
    modifies store, store.ledger
    ensures Sane(Lines(store.ledger.content), store.keyOf) && Grew(Lines(old(store.ledger.content)), Lines(store.ledger.content))
    ensures r.Some? ==> (r.value, Lines(store.ledger.content)) == RunOf(Lines(old(store.ledger.content)), assets, store.keyOf)
    ensures r.Some? && Tail(Lines(old(store.ledger.content))) == "" ==>
      && Tail(Lines(store.ledger.content)) == ""
      && Covers(RecordsOf(Lines(store.ledger.content), store.keyOf), assets, store.keyOf)
    ensures Consistent(assets, store.keyOf) && OnlyFrom(RecordsOf(Lines(old(store.ledger.content)), store.keyOf), assets, store.keyOf) ==>
      && OnlyFrom(RecordsOf(Lines(store.ledger.content), store.keyOf), assets, store.keyOf)
      && (r.Some? ==> r.value == RecordsIn(assets))
  {
    ghost var lines0 := Lines(store.ledger.content);
    ghost var own := Consistent(assets, store.keyOf) && OnlyFrom(RecordsOf(lines0, store.keyOf), assets, store.keyOf);
    var results: seq<string> := [];
    var i := 0;
    while i < |assets|
      invariant 0 <= i <= |assets|
      invariant Progress(lines0, Lines(store.ledger.content), assets, i, results, store.keyOf)
      invariant own ==> OnlyFrom(RecordsOf(Lines(store.ledger.content), store.keyOf), assets, store.keyOf)
    {
      ghost var lines := Lines(store.ledger.content);
      var result := Migrate(store, assets[i], false);
      if own {
        MigratedOne(RecordsOf(lines, store.keyOf), RecordsOf(Lines(store.ledger.content), store.keyOf), assets, store.keyOf, i);
      }
      if result.None? {
        GrewIsTransitive(lines0, lines, Lines(store.ledger.content));
        return None;
      }
      ProgressNext(lines0, lines, Lines(store.ledger.content), assets, i, results, result.value, store.keyOf);
      results := results + [result.value];
      i := i + 1;
    }
    assert assets[..i] == assets;
    RunKeepsPromises(lines0, assets, store.keyOf);
    return Some(results);
  }

  // ---------------------------------------------------------------- what a run returns

  lemma {:induction false} StepKeepsSane(lines: seq<string>, asset: Asset, keyOf: string -> string)
    requires Sane(lines, keyOf) && IsRecord(asset.record)
    ensures var after := StepOf(lines, asset, keyOf).1; var key := keyOf(asset.record);
      && Sane(after, keyOf)
      && OnlyAdded(RecordsOf(lines, keyOf), RecordsOf(after, keyOf), key, asset.record)
      && (Tail(lines) == "" ==>
            && Tail(after) == ""
            && RecordsOf(after, keyOf) ==
               if key in RecordsOf(lines, keyOf) then RecordsOf(lines, keyOf) else RecordsOf(lines, keyOf)[key := asset.record])
  {
    KeptIsPart(lines, keyOf);
    if keyOf(asset.record) !in RecordsOf(lines, keyOf) {
      assert asset.record[..|asset.record|] == asset.record;
      WriteKeepsSane(lines, keyOf, asset.record, |asset.record|, true);
      if Tail(lines) == "" {
        AppendedKeeps(lines, keyOf);
      }
    }
  }

  lemma {:induction false} ConsistentStep(lines: seq<string>, assets: seq<Asset>, i: nat, keyOf: string -> string)
    requires Consistent(assets, keyOf) && i < |assets| && IsRecord(assets[i].record)
    requires Sane(lines, keyOf) && OnlyFrom(RecordsOf(lines, keyOf), assets, keyOf)
    ensures var step := StepOf(lines, assets[i], keyOf);
      step.0 == assets[i].record && Sane(step.1, keyOf) && OnlyFrom(RecordsOf(step.1, keyOf), assets, keyOf)
  {
    StepKeepsSane(lines, assets[i], keyOf);
    MigratedOne(RecordsOf(lines, keyOf), RecordsOf(StepOf(lines, assets[i], keyOf).1, keyOf), assets, keyOf, i);
  }

  /** Whatever the tail of the ledger, a run over consistent assets the ledger holds nothing else for returns their own records. */
  lemma {:induction false} ConsistentRunReturnsAll(lines: seq<string>, assets: seq<Asset>, n: nat, keyOf: string -> string)
    requires Projected(assets) && Consistent(assets, keyOf) && n <= |assets|
    requires Sane(lines, keyOf) && OnlyFrom(RecordsOf(lines, keyOf), assets, keyOf)
    ensures var run := RunOf(lines, assets[..n], keyOf);
      run.0 == RecordsIn(assets[..n]) && Sane(run.1, keyOf) && OnlyFrom(RecordsOf(run.1, keyOf), assets, keyOf)
  {
    if n > 0 {
      ConsistentRunReturnsAll(lines, assets, n - 1, keyOf);
      RunNext(lines, assets, n - 1, keyOf);
      ConsistentStep(RunOf(lines, assets[..n - 1], keyOf).1, assets, n - 1, keyOf);
    }
  }

  /** What stands under the key after these assets: what stood there before, or what the first of them with the key left. */
  function Ruling(records: map<string, string>, assets: seq<Asset>, keyOf: string -> string, key: string): Option<string> {
    if assets == [] then if key in records then Some(records[key]) else None
    else
      var before := Ruling(records, assets[..|assets| - 1], keyOf, key);
      var last := assets[|assets| - 1].record;
      if before.None? && keyOf(last) == key then Some(last) else before
  }

  /** Nothing else stands under the asset's key when its turn comes, unless its source is corrupted. */
  predicate IsOwn(records: map<string, string>, assets: seq<Asset>, keyOf: string -> string, i: nat)
    requires i < |assets|
  {
    assets[i].corrupted || Ruling(records, assets[..i], keyOf, keyOf(assets[i].record)) in {None, Some(assets[i].record)}
  }

  predicate AllOwn(records: map<string, string>, assets: seq<Asset>, keyOf: string -> string, n: nat)
    requires n <= |assets|
  {
    forall i :: 0 <= i < n ==> IsOwn(records, assets, keyOf, i)
  }

  lemma {:induction false} AllOwnNext(records: map<string, string>, assets: seq<Asset>, keyOf: string -> string, n: nat)
    requires n < |assets|
    ensures AllOwn(records, assets, keyOf, n + 1) <==> AllOwn(records, assets, keyOf, n) && IsOwn(records, assets, keyOf, n)
  {
  }

  lemma {:induction false} RunRules(lines: seq<string>, assets: seq<Asset>, keyOf: string -> string)
    requires Projected(assets) && Sane(lines, keyOf) && Tail(lines) == ""
    ensures var after := RunOf(lines, assets, keyOf).1;
      && Sane(after, keyOf) && Tail(after) == ""
      && forall key :: Ruling(RecordsOf(lines, keyOf), assets, keyOf, key) ==
           if key in RecordsOf(after, keyOf) then Some(RecordsOf(after, keyOf)[key]) else None
  {
    if assets != [] {
      var init, last := assets[..|assets| - 1], assets[|assets| - 1];
      RunRules(lines, init, keyOf);
      StepKeepsSane(RunOf(lines, init, keyOf).1, last, keyOf);
    }
  }

  lemma {:induction false} StepReturnsOwn(lines: seq<string>, assets: seq<Asset>, i: nat, keyOf: string -> string)
    requires Projected(assets) && Sane(lines, keyOf) && Tail(lines) == "" && i < |assets|
    ensures StepOf(RunOf(lines, assets[..i], keyOf).1, assets[i], keyOf).0 == assets[i].record
       <==> IsOwn(RecordsOf(lines, keyOf), assets, keyOf, i)
  {
    RunRules(lines, assets[..i], keyOf);
  }

  lemma {:induction false} RulingCovers(records: map<string, string>, assets: seq<Asset>, keyOf: string -> string, i: nat)
    requires i < |assets|
    ensures Ruling(records, assets, keyOf, keyOf(assets[i].record)).Some?
  {
    if i < |assets| - 1 {
      RulingCovers(records, assets[..|assets| - 1], keyOf, i);
    }
  }

  /** What any run leaves on a terminated last line, and what a consistent one returns. */
  lemma {:induction false} RunKeepsPromises(lines: seq<string>, assets: seq<Asset>, keyOf: string -> string)
    requires Projected(assets) && Sane(lines, keyOf)
    ensures var run := RunOf(lines, assets, keyOf);
      && (Tail(lines) == "" ==> Tail(run.1) == "" && Covers(RecordsOf(run.1, keyOf), assets, keyOf))
      && (Consistent(assets, keyOf) && OnlyFrom(RecordsOf(lines, keyOf), assets, keyOf) ==> run.0 == RecordsIn(assets))
  {
    if Tail(lines) == "" {
      RunRules(lines, assets, keyOf);
      forall i | 0 <= i < |assets| ensures keyOf(assets[i].record) in RecordsOf(RunOf(lines, assets, keyOf).1, keyOf) {
        RulingCovers(RecordsOf(lines, keyOf), assets, keyOf, i);
      }
    }
    if Consistent(assets, keyOf) && OnlyFrom(RecordsOf(lines, keyOf), assets, keyOf) {
      ConsistentRunReturnsAll(lines, assets, |assets|, keyOf);
      assert assets[..|assets|] == assets;
    }
  }

  /**
   On a ledger with a terminated last line a run returns every asset's own record exactly when no other record stands
   under the key of an uncorrupted one when its turn comes.
   */
  lemma {:induction false} RunReturnsOwnRecords(lines: seq<string>, assets: seq<Asset>, n: nat, keyOf: string -> string)
    requires Projected(assets) && Sane(lines, keyOf) && Tail(lines) == "" && n <= |assets|
    ensures RunOf(lines, assets[..n], keyOf).0 == RecordsIn(assets[..n]) <==> AllOwn(RecordsOf(lines, keyOf), assets, keyOf, n)
  {
    if n > 0 {
      RunReturnsOwnRecords(lines, assets, n - 1, keyOf);
      RunNext(lines, assets, n - 1, keyOf);
      StepReturnsOwn(lines, assets, n - 1, keyOf);
      AllOwnNext(RecordsOf(lines, keyOf), assets, keyOf, n - 1);
      var before := RunOf(lines, assets[..n - 1], keyOf);
      var result, own := StepOf(before.1, assets[n - 1], keyOf).0, assets[n - 1].record;
      LastDiffers(before.0, RecordsIn(assets[..n - 1]), result, own);
      assert RunOf(lines, assets[..n], keyOf).0 == before.0 + [result];
    }
  }

  lemma {:induction false} LastDiffers(a: seq<string>, b: seq<string>, x: string, y: string)
    requires |a| == |b|
    ensures a + [x] == b + [y] <==> a == b && x == y
  {
    if a + [x] == b + [y] {
      assert (a + [x])[..|a|] == a && (b + [y])[..|b|] == b;
      assert (a + [x])[|a|] == x && (b + [y])[|b|] == y;
    }
  }

  /**
   However often a run over the inventory crashed before, and whatever it had left, one that gets through returns what
   an uninterrupted one does: the assets' own records.
   */
  method MigrateUntilDone(
      store: FileObservationMigrationStore, assets: seq<Asset>, attempts: nat)
    returns (r: Option<seq<string>>)
    requires Projected(assets) && Consistent(assets, store.keyOf) && Sane(Lines(store.ledger.content), store.keyOf)
    requires OnlyFrom(RecordsOf(Lines(store.ledger.content), store.keyOf), assets, store.keyOf)
    modifies store, store.ledger
    ensures Sane(Lines(store.ledger.content), store.keyOf)
    ensures OnlyFrom(RecordsOf(Lines(store.ledger.content), store.keyOf), assets, store.keyOf)
    ensures r.Some? ==> r.value == RecordsIn(assets)
  {
    r := None;
    var i := 0;
    while i < attempts && r.None?
      invariant Sane(Lines(store.ledger.content), store.keyOf)
      invariant OnlyFrom(RecordsOf(Lines(store.ledger.content), store.keyOf), assets, store.keyOf)
      invariant r.Some? ==> r.value == RecordsIn(assets)
      decreases attempts - i
    {
      r := MigrateAll(store, assets);
      i := i + 1;
    }
  }

  // ---------------------------------------------------------------- torn lines

  /** A torn line takes the next record with it: `{` and behind it a whole record, and nothing is found. */
  lemma {:induction false} TornLineLosesNextRecord(keyOf: string -> string)
    ensures var record := "{\"a\":0}";
      && IsRecord(record) && Sane(Lines("{"), keyOf)
      && RecordsOf(Lines("{"), keyOf) == map[] && RecordsOf(Lines("{" + record + "\n"), keyOf) == map[]
  {
    var record := "{\"a\":0}";
    ReadsAsRecord();
    assert Lines("{") == ["{"] by {
      LineOfText("{");
    }
    assert !Parses("{") && Spoilt(Read(START, "{")) by {
      assert Read(START, "{") == Read(Reader(Outside, 1), "");
    }
    assert ["{"][..0] == [];
    AppendedInFull("{", keyOf, record);
  }

  lemma {:induction false} ReadsAsRecord()
    ensures IsRecord("{\"a\":0}")
  {
    assert Read(START, "{\"a\":0}") == Read(Reader(Outside, 1), "\"a\":0}");
    assert Read(Reader(Outside, 1), "\"a\":0}") == Read(Reader(InString, 1), "a\":0}");
    assert Read(Reader(InString, 1), "a\":0}") == Read(Reader(InString, 1), "\":0}");
    assert Read(Reader(InString, 1), "\":0}") == Read(Reader(AfterString, 1), ":0}");
    assert Read(Reader(AfterString, 1), ":0}") == Read(Reader(Outside, 1), "0}");
    assert Read(Reader(Outside, 1), "0}") == Read(Reader(Outside, 1), "}");
    assert Read(Reader(Outside, 1), "}") == Read(Reader(Complete, 0), "");
  }

  /**
   Two assets with one key and different records: an uninterrupted run answers the second from the first, a run behind the
   first one's torn line does not.  So runs agree with interrupted ones on consistent inventories only.
   */
  lemma {:induction false} TornLineTellsAssetsApart(a: Asset, b: Asset, k: nat, keyOf: string -> string)
    requires IsRecord(a.record) && IsRecord(b.record) && !b.corrupted && 0 < k < |a.record|
    requires keyOf(a.record) == keyOf(b.record) && a.record != b.record
    ensures RunOf([""], [a, b], keyOf).0 == [a.record, a.record]
    ensures RunOf([a.record[..k]], [a, b], keyOf).0 == [a.record, b.record]
  {
    var torn := [a.record[..k]];
    assert !Parses("") && [""][..0] == [] && torn[..0] == [];
    ProperBeginningIsNoRecord(a.record, k);
    BeginningOfRecord(a.record, k);
    assert Sane([""], keyOf) && Sane(torn, keyOf);
    FirstIsWritten([""], a, keyOf);
    FirstIsWritten(torn, a, keyOf);
    RunOfTwo([""], a, b, keyOf);
    RunOfTwo(torn, a, b, keyOf);
  }

  lemma {:induction false} FirstIsWritten(lines: seq<string>, a: Asset, keyOf: string -> string)
    requires Sane(lines, keyOf) && IsRecord(a.record) && |lines| == 1 && !Parses(lines[0])
    ensures var step := StepOf(lines, a, keyOf);
      step.0 == a.record && |step.1| > 0 && RecordsOf(step.1, keyOf) == if lines[0] == "" then map[keyOf(a.record) := a.record] else map[]
  {
    assert lines[..|lines| - 1] == [];
    assert a.record[..|a.record|] == a.record;
    WriteKeepsSane(lines, keyOf, a.record, |a.record|, true);
  }

  lemma {:induction false} RunOfTwo(lines: seq<string>, a: Asset, b: Asset, keyOf: string -> string)
    requires |lines| > 0
    ensures var step := StepOf(lines, a, keyOf);
      RunOf(lines, [a, b], keyOf).0 == [step.0, StepOf(step.1, b, keyOf).0]
  {
    assert [a, b][..0] == [] && [a, b][..2] == [a, b];
    RunNext(lines, [a, b], 0, keyOf);
    RunNext(lines, [a, b], 1, keyOf);
  }
}
