/** The usage extractor and log scanner: session-log lines are folded into per-(day, model)
    token totals, and the log root is searched recursively for `.jsonl` files. */
module Parser {
  import opened Util

  // Session-log events

  /** `message.usage`: the two token counters, None when a counter is absent or falsy. */
  datatype Usage = Usage(inputTokens: Option<nat>, outputTokens: Option<nat>)

  /** The fields of one parsed log line that the extractor reads: `type`, `timestamp`,
      `message.model` and `message.usage`. None stands for a field that is absent or holds a
      falsy value (`null`, `false`, `0`, ""), which the extractor treats alike. */
  datatype Event = Event(kind: string, timestamp: Option<string>, model: Option<string>, usage: Option<Usage>)

  /** One non-blank line of a session log after `JSON.parse` (blank lines are dropped before
      parsing). `Malformed` stands for every line whose processing throws: invalid JSON, a `null`
      line, and a truthy timestamp or model of the wrong JSON type (a non-zero number, ...). */
  datatype LogLine = Malformed | Parsed(event: Event)

  /** The aggregation key: calendar day and normalized model name. */
  datatype Key = Key(day: string, model: string)

  datatype Totals = Totals(input: nat, output: nat)

  /** The aggregation map; `Object.values` of it is the list of usage records. */
  type Records = map<Key, Totals>

  /** What one counted event adds to the aggregation map. */
  datatype Contribution = Contribution(key: Key, tokens: Totals)

  const ZERO: Totals := Totals(0, 0)
  const DAY_LENGTH: nat := 10
  const ASSISTANT: string := "assistant"
  const UNKNOWN_MODEL: string := "unknown"

  function Plus(a: Totals, b: Totals): Totals
  {
    Totals(a.input + b.input, a.output + b.output)
  }

  lemma PlusZero(t: Totals)
    ensures Plus(t, ZERO) == t
  {
  }

  lemma PlusAssociative(a: Totals, b: Totals, c: Totals)
    ensures Plus(Plus(a, b), c) == Plus(a, Plus(b, c))
  {
  }

  lemma PlusRearrange(x: Totals, a: Totals, b: Totals)
    ensures Plus(x, Plus(a, b)) == Plus(a, Plus(x, b))
  {
  }

  /** The totals of `key`, zero when the map has no entry for it. */
  function Get(records: Records, key: Key): Totals
  {
    if key in records then records[key] else ZERO
  }

  // Normalization of model names

  /** Friendly model name: the first of "opus", "sonnet", "haiku" found in the name decides it;
      any other name is kept as it is. */
  function NormalizeModelName(model: string): (r: string)
    ensures r == model || r in {"Opus", "Sonnet", "Haiku"}
  {
    if Contains(model, "opus") then "Opus"
    else if Contains(model, "sonnet") then "Sonnet"
    else if Contains(model, "haiku") then "Haiku"
    else model
  }

  /** The priority rule stated by occurrences: "opus" anywhere gives "Opus"; otherwise "sonnet"
      anywhere gives "Sonnet"; otherwise "haiku" anywhere gives "Haiku"; otherwise the name stays. */
  lemma NormalizeModelNameByOccurrence(model: string)
    ensures (exists i :: OccursAt(model, "opus", i)) ==> NormalizeModelName(model) == "Opus"
    ensures ((forall i :: !OccursAt(model, "opus", i)) && (exists i :: OccursAt(model, "sonnet", i)))
              ==> NormalizeModelName(model) == "Sonnet"
    ensures ((forall i :: !OccursAt(model, "opus", i)) && (forall i :: !OccursAt(model, "sonnet", i))
              && (exists i :: OccursAt(model, "haiku", i))) ==> NormalizeModelName(model) == "Haiku"
    ensures ((forall i :: !OccursAt(model, "opus", i)) && (forall i :: !OccursAt(model, "sonnet", i))
              && (forall i :: !OccursAt(model, "haiku", i))) ==> NormalizeModelName(model) == model
  {
    forall sub | sub in ["opus", "sonnet", "haiku"]
      ensures Contains(model, sub) <==> exists i :: OccursAt(model, sub, i)
    {
      if Contains(model, sub) {
        var i := ContainsWitness(model, sub);
        assert OccursAt(model, sub, i);
      }
      if i :| OccursAt(model, sub, i) {
        ContainsAt(model, sub, i);
      }
    }
  }

  /** `s` cannot contain `sub` when a character of `sub` is missing from `s`. */
  lemma {:induction false} MissingChar(s: string, sub: string, j: nat)
    requires j < |sub| && sub[j] !in s
    ensures !Contains(s, sub)
    decreases |s|
  {
    if j < |s| {
      assert s[j] in s;
      assert !StartsWith(s, sub) by {
        if |sub| <= |s| {
          assert s[..|sub|][j] == s[j];
        }
      }
    }
    if |s| > 0 {
      assert forall c :: c in s[1..] ==> c in s;
      MissingChar(s[1..], sub, j);
    }
  }

  /** Normalizing twice changes nothing: the friendly names contain none of the lower-case markers. */
  lemma NormalizeModelNameIdempotent(model: string)
    ensures NormalizeModelName(NormalizeModelName(model)) == NormalizeModelName(model)
  {
    var r := NormalizeModelName(model);
    if r == "Opus" {
      MissingChar(r, "opus", 0);
      MissingChar(r, "sonnet", 1);
      MissingChar(r, "haiku", 0);
    } else if r == "Sonnet" {
      MissingChar(r, "opus", 1);
      MissingChar(r, "sonnet", 0);
      MissingChar(r, "haiku", 0);
    } else if r == "Haiku" {
      MissingChar(r, "opus", 0);
      MissingChar(r, "sonnet", 0);
      MissingChar(r, "haiku", 0);
    }
  }

  // Extraction of one line

  /** A line the extractor looks at: an assistant message with a usage object and a non-empty
      timestamp. */
  predicate IsUsageEvent(line: LogLine)
  {
    && line.Parsed?
    && line.event.kind == ASSISTANT
    && line.event.usage.Some?
    && line.event.timestamp.Some?
    && line.event.timestamp.value != ""
  }

  /** The optional date floor: with no floor (null or "") every day passes, otherwise a day passes
      unless it sorts before the floor. */
  predicate PassesDateFloor(day: string, minDate: Option<string>)
  {
    minDate.None? || minDate.value == "" || !LexLess(day, minDate.value)
  }

  /** `usage.input_tokens || 0` */
  function TokenCount(n: Option<nat>): nat
  {
    if n.Some? then n.value else 0
  }

  /** `message.model || 'unknown'` */
  function ModelOf(e: Event): string
  {
    if e.model.Some? && e.model.value != "" then e.model.value else UNKNOWN_MODEL
  }

  /** The friendly-name rule keeps the fallback model name as it is. */
  lemma UnknownModelKept()
    ensures NormalizeModelName(UNKNOWN_MODEL) == UNKNOWN_MODEL
  {
    MissingChar(UNKNOWN_MODEL, "opus", 1);
    MissingChar(UNKNOWN_MODEL, "sonnet", 0);
    MissingChar(UNKNOWN_MODEL, "haiku", 0);
  }

  /** What `line` adds to the aggregation, if anything: a usage event whose day passes the floor
      adds its two counters (0 for a missing one) under its day and its normalized model name
      ("unknown" when the model is missing or empty); every other line adds nothing. */
  function Extract(line: LogLine, minDate: Option<string>): (r: Option<Contribution>)
    ensures r.Some? <==> IsUsageEvent(line) && PassesDateFloor(Take(line.event.timestamp.value, DAY_LENGTH), minDate)
    ensures r.Some? ==> |r.value.key.day| == Min(DAY_LENGTH, |line.event.timestamp.value|)
                        && r.value.key.day <= line.event.timestamp.value
    ensures (r.Some? && line.event.model.Some? && line.event.model.value != "")
              ==> r.value.key.model == NormalizeModelName(line.event.model.value)
    ensures r.Some? && (line.event.model.None? || line.event.model.value == "") ==> r.value.key.model == UNKNOWN_MODEL
    ensures r.Some? && line.event.usage.value.inputTokens.Some? ==> r.value.tokens.input == line.event.usage.value.inputTokens.value
    ensures r.Some? && line.event.usage.value.inputTokens.None? ==> r.value.tokens.input == 0
    ensures r.Some? && line.event.usage.value.outputTokens.Some? ==> r.value.tokens.output == line.event.usage.value.outputTokens.value
    ensures r.Some? && line.event.usage.value.outputTokens.None? ==> r.value.tokens.output == 0
  {
    if !IsUsageEvent(line) then None
    else
      var e := line.event;
      var day := Take(e.timestamp.value, DAY_LENGTH);
      if !PassesDateFloor(day, minDate) then None
      else
        UnknownModelKept();
        var key := Key(day, NormalizeModelName(ModelOf(e)));
        Some(Contribution(key, Totals(TokenCount(e.usage.value.inputTokens), TokenCount(e.usage.value.outputTokens))))
  }

  /** The defaults, each on its own and under any floor the event's day passes: a missing input
      or output counter adds 0 while the other is counted, and a missing or empty model is filed
      under "unknown". */
  lemma ExtractDefaults(line: LogLine, minDate: Option<string>)
    requires IsUsageEvent(line) && PassesDateFloor(Take(line.event.timestamp.value, DAY_LENGTH), minDate)
    ensures Extract(line, minDate).Some?
    ensures line.event.usage.value.inputTokens.None? ==> Extract(line, minDate).value.tokens.input == 0
    ensures line.event.usage.value.outputTokens.None? ==> Extract(line, minDate).value.tokens.output == 0
    ensures line.event.model.None? || line.event.model == Some("") ==> Extract(line, minDate).value.key.model == UNKNOWN_MODEL
  {
  }

  // The fold over the lines of one file

  /** Adds one contribution: its key is present afterwards with grown totals (starting from 0/0
      when new), and every other entry is unchanged. */
  function AddTo(records: Records, c: Contribution): (r: Records)
    ensures r.Keys == records.Keys + {c.key}
    ensures r[c.key].input == Get(records, c.key).input + c.tokens.input
    ensures r[c.key].output == Get(records, c.key).output + c.tokens.output
    ensures forall k :: k in records && k != c.key ==> r[k] == records[k]
  {
    records[c.key := Plus(Get(records, c.key), c.tokens)]
  }

  /** Creates a missing entry at 0/0 and then adds to it in place. */
  method AddInPlace(records: Records, c: Contribution) returns (r: Records)
    ensures r == AddTo(records, c)
  {
    r := records;
    if c.key !in r {
      r := r[c.key := ZERO];
    }
    r := r[c.key := Totals(r[c.key].input + c.tokens.input, r[c.key].output + c.tokens.output)];
  }

  function Step(records: Records, line: LogLine, minDate: Option<string>): Records
  {
    match Extract(line, minDate)
    case None => records
    case Some(c) => AddTo(records, c)
  }

  /** The aggregation map after folding `lines`, in order, into `records`. */
  function FoldLines(records: Records, lines: seq<LogLine>, minDate: Option<string>): Records
    decreases |lines|
  {
    if lines == [] then records
    else Step(FoldLines(records, lines[..|lines| - 1], minDate), lines[|lines| - 1], minDate)
  }

  lemma FoldLinesStep(records: Records, lines: seq<LogLine>, i: nat, minDate: Option<string>)
    requires i < |lines|
    ensures FoldLines(records, lines[..i + 1], minDate) == Step(FoldLines(records, lines[..i], minDate), lines[i], minDate)
  {
    assert lines[..i + 1][..i] == lines[..i];
  }

  // Reference totals: what each key should hold, as a sum over the lines

  /** `line` is counted under `key`. */
  predicate CountsFor(line: LogLine, minDate: Option<string>, key: Key)
  {
    Extract(line, minDate).Some? && Extract(line, minDate).value.key == key
  }

  /** What `line` adds to the totals of `key`. */
  function Part(line: LogLine, minDate: Option<string>, key: Key): Totals
  {
    if CountsFor(line, minDate, key) then Extract(line, minDate).value.tokens else ZERO
  }

  /** The sum of the tokens of every line counted under `key`. */
  function KeyTotal(lines: seq<LogLine>, minDate: Option<string>, key: Key): Totals
    decreases |lines|
  {
    if lines == [] then ZERO else Plus(Part(lines[0], minDate, key), KeyTotal(lines[1..], minDate, key))
  }

  lemma KeyTotalSingle(line: LogLine, minDate: Option<string>, key: Key)
    ensures KeyTotal([line], minDate, key) == Part(line, minDate, key)
  {
    assert [line][1..] == [];
    PlusZero(Part(line, minDate, key));
  }

  /** Some line is counted under `key`. */
  predicate Mentions(lines: seq<LogLine>, minDate: Option<string>, key: Key)
  {
    exists i :: 0 <= i < |lines| && CountsFor(lines[i], minDate, key)
  }

  lemma {:induction false} KeyTotalAppend(a: seq<LogLine>, b: seq<LogLine>, minDate: Option<string>, key: Key)
    ensures KeyTotal(a + b, minDate, key) == Plus(KeyTotal(a, minDate, key), KeyTotal(b, minDate, key))
    decreases |a|
  {
    if a == [] {
      assert a + b == b;
    } else {
      assert (a + b)[0] == a[0] && (a + b)[1..] == a[1..] + b;
      KeyTotalAppend(a[1..], b, minDate, key);
    }
  }

  lemma MentionsAppend(a: seq<LogLine>, line: LogLine, minDate: Option<string>, key: Key)
    ensures Mentions(a + [line], minDate, key) <==> Mentions(a, minDate, key) || CountsFor(line, minDate, key)
  {
    var s := a + [line];
    if Mentions(s, minDate, key) {
      var i :| 0 <= i < |s| && CountsFor(s[i], minDate, key);
      if i < |a| {
        assert a[i] == s[i];
      }
    }
    if Mentions(a, minDate, key) {
      var i :| 0 <= i < |a| && CountsFor(a[i], minDate, key);
      assert s[i] == a[i];
    }
    if CountsFor(line, minDate, key) {
      assert s[|a|] == line;
    }
  }

  /** One step adds `line`'s tokens to the key it is counted under and changes nothing else. */
  lemma StepTotals(records: Records, line: LogLine, minDate: Option<string>, key: Key)
    ensures key in Step(records, line, minDate) <==> key in records || CountsFor(line, minDate, key)
    ensures Get(Step(records, line, minDate), key) == Plus(Get(records, key), Part(line, minDate, key))
  {
    var e := Extract(line, minDate);
    if e.Some? {
      var c := e.value;
      var r := AddTo(records, c);
      assert Step(records, line, minDate) == r;
      if key == c.key {
        assert CountsFor(line, minDate, key);
        assert Part(line, minDate, key) == c.tokens;
        assert key in r;
        assert Get(r, key) == Plus(Get(records, key), c.tokens);
      } else {
        assert !CountsFor(line, minDate, key);
        assert Part(line, minDate, key) == ZERO;
        assert key in r <==> key in records;
        assert Get(r, key) == Get(records, key);
        PlusZero(Get(records, key));
      }
    } else {
      assert Step(records, line, minDate) == records;
      assert !CountsFor(line, minDate, key);
      PlusZero(Get(records, key));
    }
  }

  /** Folding a file's lines leaves exactly one entry per key that was present or that some line
      is counted under. */
  lemma {:induction false} FoldLinesKeys(records: Records, lines: seq<LogLine>, minDate: Option<string>, key: Key)
    ensures key in FoldLines(records, lines, minDate) <==> key in records || Mentions(lines, minDate, key)
    decreases |lines|
  {
    if lines != [] {
      var init, last := lines[..|lines| - 1], lines[|lines| - 1];
      assert lines == init + [last];
      FoldLinesKeys(records, init, minDate, key);
      StepTotals(FoldLines(records, init, minDate), last, minDate, key);
      MentionsAppend(init, last, minDate, key);
    }
  }

  /** Folding a file's lines gives each key its earlier totals plus the sum over all lines counted
      under it. */
  lemma {:induction false} FoldLinesTotals(records: Records, lines: seq<LogLine>, minDate: Option<string>, key: Key)
    ensures Get(FoldLines(records, lines, minDate), key) == Plus(Get(records, key), KeyTotal(lines, minDate, key))
    decreases |lines|
  {
    if lines == [] {
      PlusZero(Get(records, key));
    } else {
      var init, last := lines[..|lines| - 1], lines[|lines| - 1];
      assert lines == init + [last];
      FoldLinesTotals(records, init, minDate, key);
      StepTotals(FoldLines(records, init, minDate), last, minDate, key);
      KeyTotalAppend(init, [last], minDate, key);
      KeyTotalSingle(last, minDate, key);
      PlusAssociative(Get(records, key), KeyTotal(init, minDate, key), Part(last, minDate, key));
    }
  }

  lemma {:induction false} FoldLinesAppend(records: Records, a: seq<LogLine>, b: seq<LogLine>, minDate: Option<string>)
    ensures FoldLines(records, a + b, minDate) == FoldLines(FoldLines(records, a, minDate), b, minDate)
    decreases |b|
  {
    if b == [] {
      assert a + b == a;
    } else {
      assert (a + b)[..|a + b| - 1] == a + b[..|b| - 1];
      assert (a + b)[|a + b| - 1] == b[|b| - 1];
      FoldLinesAppend(records, a, b[..|b| - 1], minDate);
    }
  }

  /** A malformed line is skipped and the lines around it are still folded. */
  lemma MalformedLineSkipped(records: Records, a: seq<LogLine>, b: seq<LogLine>, minDate: Option<string>)
    ensures FoldLines(records, a + [Malformed] + b, minDate) == FoldLines(records, a + b, minDate)
  {
    FoldLinesAppend(records, a + [Malformed], b, minDate);
    FoldLinesAppend(records, a, [Malformed], minDate);
    FoldLinesAppend(records, a, b, minDate);
    assert [Malformed][..0] == [];
  }

  /** The total of `lines` is the part of `lines[j]` plus the total of the other lines. */
  lemma KeyTotalSplit(lines: seq<LogLine>, j: nat, minDate: Option<string>, key: Key)
    requires j < |lines|
    ensures KeyTotal(lines, minDate, key)
         == Plus(Part(lines[j], minDate, key), KeyTotal(lines[..j] + lines[j + 1..], minDate, key))
  {
    var x, front, back := lines[j], lines[..j], lines[j + 1..];
    assert lines == front + ([x] + back);
    KeyTotalAppend(front, [x] + back, minDate, key);
    KeyTotalAppend(front, back, minDate, key);
    assert ([x] + back)[0] == x && ([x] + back)[1..] == back;
    PlusRearrange(Part(x, minDate, key), KeyTotal(front, minDate, key), KeyTotal(back, minDate, key));
  }

  /** Per-key totals do not depend on the order of the lines. */
  lemma {:induction false} KeyTotalPermutation(a: seq<LogLine>, b: seq<LogLine>, minDate: Option<string>, key: Key)
    requires multiset(a) == multiset(b)
    ensures KeyTotal(a, minDate, key) == KeyTotal(b, minDate, key)
    decreases |a|
  {
    if a == [] {
      assert |b| == |multiset(b)| == 0;
    } else {
      assert a[0] in multiset(b);
      var j :| 0 <= j < |b| && b[j] == a[0];
      MultisetRemove(a, b, j);
      KeyTotalPermutation(a[1..], b[..j] + b[j + 1..], minDate, key);
      KeyTotalSplit(b, j, minDate, key);
    }
  }

  lemma MentionsPermutation(a: seq<LogLine>, b: seq<LogLine>, minDate: Option<string>, key: Key)
    requires multiset(a) == multiset(b)
    ensures Mentions(a, minDate, key) ==> Mentions(b, minDate, key)
  {
    if Mentions(a, minDate, key) {
      var i :| 0 <= i < |a| && CountsFor(a[i], minDate, key);
      assert a[i] in multiset(b);
      var j :| 0 <= j < |b| && b[j] == a[i];
    }
  }

  /** Folding the lines of a file in any order gives the same map. */
  lemma FoldLinesOrderIndependent(records: Records, a: seq<LogLine>, b: seq<LogLine>, minDate: Option<string>)
    requires multiset(a) == multiset(b)
    ensures FoldLines(records, a, minDate) == FoldLines(records, b, minDate)
  {
    var ra, rb := FoldLines(records, a, minDate), FoldLines(records, b, minDate);
    forall key
      ensures (key in ra <==> key in rb) && Get(ra, key) == Get(rb, key)
    {
      FoldLinesKeys(records, a, minDate, key);
      FoldLinesKeys(records, b, minDate, key);
      FoldLinesTotals(records, a, minDate, key);
      FoldLinesTotals(records, b, minDate, key);
      KeyTotalPermutation(a, b, minDate, key);
      MentionsPermutation(a, b, minDate, key);
      MentionsPermutation(b, a, minDate, key);
    }
    assert ra.Keys == rb.Keys;
    forall key | key in ra ensures ra[key] == rb[key] {
      assert Get(ra, key) == Get(rb, key);
    }
  }

  // Log files and the scan of the log root

  /** A `.jsonl` file found by the scan: its path, its modification time in milliseconds
      (`mtimeMs`, which has a fractional part) and its lines, None when it cannot be read. */
  datatype LogFile = LogFile(path: string, mtime: real, content: Option<seq<LogLine>>)

  /** A directory entry as the scan sees it: `statSync` fails on it, or it is a directory whose
      `readdirSync` fails, or a readable directory with its entries, or a file. */
  datatype Node =
    | Inaccessible
    | UnreadableDirectory
    | Directory(entries: seq<Entry>)
    | RegularFile(mtime: real, content: Option<seq<LogLine>>)

  datatype Entry = Entry(name: string, node: Node)

  const LOG_EXTENSION: string := ".jsonl"

  /** `path.join(dir, name)` for an entry name returned by `readdirSync`. */
  function Join(dir: string, name: string): string
  {
    dir + "/" + name
  }

  /** The files found among the first `k` entries of directory `node` at path `dir`. */
  function ListingFiles(dir: string, node: Node, k: nat): seq<LogFile>
    requires node.Directory? && k <= |node.entries|
    decreases node, k
  {
    if k == 0 then [] else ListingFiles(dir, node, k - 1) + EntryFiles(dir, node.entries[k - 1])
  }

  /** The files one entry of a listing at path `dir` contributes: a `.jsonl` file itself, the
      files below a readable directory, nothing otherwise. */
  function EntryFiles(dir: string, entry: Entry): seq<LogFile>
    decreases entry
  {
    var path := Join(dir, entry.name);
    if entry.node.Directory? then ListingFiles(path, entry.node, |entry.node.entries|)
    else if entry.node.RegularFile? && EndsWith(entry.name, LOG_EXTENSION) then [LogFile(path, entry.node.mtime, entry.node.content)]
    else []
  }

  /** The files the scan of `node` at path `dir` returns, in the order it returns them. */
  function JsonlFiles(dir: string, node: Node): seq<LogFile>
  {
    if node.Directory? then ListingFiles(dir, node, |node.entries|) else []
  }

  /** Recursively collects the `.jsonl` files under `dir`; entries and directories that cannot be
      read are skipped. */
  method FindJsonlFiles(dir: string, node: Node) returns (files: seq<LogFile>)
    ensures files == JsonlFiles(dir, node)
    decreases node
  {
    files := [];
    if node.Directory? {
      var entries := node.entries;
      for i := 0 to |entries|
        invariant files == ListingFiles(dir, node, i)
      {
        var entry := entries[i];
        var path := Join(dir, entry.name);
        if entry.node.Directory? {
          var nested := FindJsonlFiles(path, entry.node);
          files := files + nested;
        } else if entry.node.RegularFile? && EndsWith(entry.name, LOG_EXTENSION) {
          files := files + [LogFile(path, entry.node.mtime, entry.node.content)];
        }
      }
    }
  }

  /** `f` is a `.jsonl` file reached from directory `node` through readable directories. */
  ghost predicate Found(dir: string, node: Node, f: LogFile)
    decreases node
  {
    node.Directory? && exists i :: 0 <= i < |node.entries| && FoundIn(dir, node.entries[i], f)
  }

  /** `f` is `entry` itself, a `.jsonl` file, or is found below it. */
  ghost predicate FoundIn(dir: string, entry: Entry, f: LogFile)
    decreases entry
  {
    match entry.node
    case RegularFile(mtime, content) =>
      EndsWith(entry.name, LOG_EXTENSION) && f == LogFile(Join(dir, entry.name), mtime, content)
    case Directory(_) => Found(Join(dir, entry.name), entry.node, f)
    case UnreadableDirectory => false
    case Inaccessible => false
  }

  lemma {:induction false} ListingFilesFound(dir: string, node: Node, k: nat, f: LogFile)
    requires node.Directory? && k <= |node.entries|
    ensures f in ListingFiles(dir, node, k) <==> exists i :: 0 <= i < k && FoundIn(dir, node.entries[i], f)
    decreases node, k
  {
    if k > 0 {
      var entries := node.entries;
      ListingFilesFound(dir, node, k - 1, f);
      EntryFilesFound(dir, entries[k - 1], f);
      if exists i :: 0 <= i < k && FoundIn(dir, entries[i], f) {
        var i :| 0 <= i < k && FoundIn(dir, entries[i], f);
        if i < k - 1 {
          assert exists j :: 0 <= j < k - 1 && FoundIn(dir, entries[j], f);
        }
      }
    }
  }

  lemma {:induction false} EntryFilesFound(dir: string, entry: Entry, f: LogFile)
    ensures f in EntryFiles(dir, entry) <==> FoundIn(dir, entry, f)
    decreases entry
  {
    if entry.node.Directory? {
      ListingFilesFound(Join(dir, entry.name), entry.node, |entry.node.entries|, f);
    }
  }

  /** The scan returns exactly the `.jsonl` files reachable through readable directories. */
  lemma JsonlFilesFound(dir: string, node: Node, f: LogFile)
    ensures f in JsonlFiles(dir, node) <==> Found(dir, node, f)
  {
    if node.Directory? {
      ListingFilesFound(dir, node, |node.entries|, f);
    }
  }

  /** Every file the search reaches has a path ending in ".jsonl". */
  lemma {:induction false} FoundIsLog(dir: string, node: Node, f: LogFile)
    requires Found(dir, node, f)
    ensures EndsWith(f.path, LOG_EXTENSION)
    decreases node
  {
    var entries := node.entries;
    var i :| 0 <= i < |entries| && FoundIn(dir, entries[i], f);
    var entry := entries[i];
    var path := Join(dir, entry.name);
    if entry.node.RegularFile? {
      assert path[|path| - |LOG_EXTENSION|..] == entry.name[|entry.name| - |LOG_EXTENSION|..];
    } else {
      FoundIsLog(path, entry.node, f);
    }
  }

  // The fold over many files

  /** A file that cannot be read adds nothing; the others are folded line by line. */
  function FoldFile(records: Records, file: LogFile, minDate: Option<string>): Records
  {
    if file.content.None? then records else FoldLines(records, file.content.value, minDate)
  }

  function FoldFiles(records: Records, files: seq<LogFile>, minDate: Option<string>): Records
    decreases |files|
  {
    if files == [] then records
    else FoldFile(FoldFiles(records, files[..|files| - 1], minDate), files[|files| - 1], minDate)
  }

  function FileTotal(file: LogFile, minDate: Option<string>, key: Key): Totals
  {
    if file.content.None? then ZERO else KeyTotal(file.content.value, minDate, key)
  }

  predicate FileMentions(file: LogFile, minDate: Option<string>, key: Key)
  {
    file.content.Some? && Mentions(file.content.value, minDate, key)
  }

  /** The sum of the tokens counted under `key` in all readable files. */
  function FilesTotal(files: seq<LogFile>, minDate: Option<string>, key: Key): Totals
    decreases |files|
  {
    if files == [] then ZERO else Plus(FileTotal(files[0], minDate, key), FilesTotal(files[1..], minDate, key))
  }

  lemma FilesTotalSingle(f: LogFile, minDate: Option<string>, key: Key)
    ensures FilesTotal([f], minDate, key) == FileTotal(f, minDate, key)
  {
    assert [f][1..] == [];
    PlusZero(FileTotal(f, minDate, key));
  }

  predicate FilesMention(files: seq<LogFile>, minDate: Option<string>, key: Key)
  {
    exists f :: f in files && FileMentions(f, minDate, key)
  }

  lemma {:induction false} FilesTotalAppend(a: seq<LogFile>, b: seq<LogFile>, minDate: Option<string>, key: Key)
    ensures FilesTotal(a + b, minDate, key) == Plus(FilesTotal(a, minDate, key), FilesTotal(b, minDate, key))
    decreases |a|
  {
    if a == [] {
      assert a + b == b;
    } else {
      assert (a + b)[0] == a[0] && (a + b)[1..] == a[1..] + b;
      FilesTotalAppend(a[1..], b, minDate, key);
    }
  }

  lemma FilesMentionAppend(a: seq<LogFile>, f: LogFile, minDate: Option<string>, key: Key)
    ensures FilesMention(a + [f], minDate, key) <==> FilesMention(a, minDate, key) || FileMentions(f, minDate, key)
  {
    if FilesMention(a + [f], minDate, key) {
      var g :| g in a + [f] && FileMentions(g, minDate, key);
      assert g in a || g == f;
    }
    if FilesMention(a, minDate, key) {
      var g :| g in a && FileMentions(g, minDate, key);
      assert g in a + [f];
    }
    if FileMentions(f, minDate, key) {
      assert f in a + [f];
    }
  }

  lemma ReadableFile(records: Records, f: LogFile, minDate: Option<string>, key: Key)
    requires f.content.Some?
    ensures FoldFile(records, f, minDate) == FoldLines(records, f.content.value, minDate)
    ensures FileTotal(f, minDate, key) == KeyTotal(f.content.value, minDate, key)
    ensures FileMentions(f, minDate, key) == Mentions(f.content.value, minDate, key)
  {
  }

  /** Folding one file creates only the keys its lines are counted under. */
  lemma FoldFileKeys(records: Records, f: LogFile, minDate: Option<string>, key: Key)
    ensures key in FoldFile(records, f, minDate) <==> key in records || FileMentions(f, minDate, key)
  {
    if f.content.Some? {
      ReadableFile(records, f, minDate, key);
      FoldLinesKeys(records, f.content.value, minDate, key);
    }
  }

  /** Folding one file adds the tokens counted under `key` in it. */
  lemma FoldFileTotals(records: Records, f: LogFile, minDate: Option<string>, key: Key)
    ensures Get(FoldFile(records, f, minDate), key) == Plus(Get(records, key), FileTotal(f, minDate, key))
  {
    if f.content.Some? {
      ReadableFile(records, f, minDate, key);
      FoldLinesTotals(records, f.content.value, minDate, key);
    } else {
      PlusZero(Get(records, key));
    }
  }

  /** Folding many files creates exactly the keys that were present or that some readable file
      mentions. */
  lemma {:induction false} FoldFilesKeys(records: Records, files: seq<LogFile>, minDate: Option<string>, key: Key)
    ensures key in FoldFiles(records, files, minDate) <==> key in records || FilesMention(files, minDate, key)
    decreases |files|
  {
    if files != [] {
      var init, last := files[..|files| - 1], files[|files| - 1];
      assert files == init + [last];
      FoldFilesKeys(records, init, minDate, key);
      FoldFileKeys(FoldFiles(records, init, minDate), last, minDate, key);
      FilesMentionAppend(init, last, minDate, key);
    }
  }

  /** Folding many files gives every key the sum, over all readable files, of the tokens counted
      under it. */
  lemma {:induction false} FoldFilesTotals(records: Records, files: seq<LogFile>, minDate: Option<string>, key: Key)
    ensures Get(FoldFiles(records, files, minDate), key) == Plus(Get(records, key), FilesTotal(files, minDate, key))
    decreases |files|
  {
    if files == [] {
      PlusZero(Get(records, key));
    } else {
      var init, last := files[..|files| - 1], files[|files| - 1];
      assert files == init + [last];
      FoldFilesTotals(records, init, minDate, key);
      FoldFileTotals(FoldFiles(records, init, minDate), last, minDate, key);
      FilesTotalAppend(init, [last], minDate, key);
      FilesTotalSingle(last, minDate, key);
      PlusAssociative(Get(records, key), FilesTotal(init, minDate, key), FileTotal(last, minDate, key));
    }
  }

  /** Removing the first element of `a` and the matching element `b[j]` of a permutation `b`
      leaves permutations of each other. */
  /** The total of `files` is the total of `files[j]` plus that of the other files. */
  lemma FilesTotalSplit(files: seq<LogFile>, j: nat, minDate: Option<string>, key: Key)
    requires j < |files|
    ensures FilesTotal(files, minDate, key)
         == Plus(FileTotal(files[j], minDate, key), FilesTotal(files[..j] + files[j + 1..], minDate, key))
  {
    var x, front, back := files[j], files[..j], files[j + 1..];
    assert files == front + ([x] + back);
    FilesTotalAppend(front, [x] + back, minDate, key);
    FilesTotalAppend(front, back, minDate, key);
    assert ([x] + back)[0] == x && ([x] + back)[1..] == back;
    PlusRearrange(FileTotal(x, minDate, key), FilesTotal(front, minDate, key), FilesTotal(back, minDate, key));
  }

  /** Totals do not depend on the order of the files. */
  lemma {:induction false} FilesTotalPermutation(a: seq<LogFile>, b: seq<LogFile>, minDate: Option<string>, key: Key)
    requires multiset(a) == multiset(b)
    ensures FilesTotal(a, minDate, key) == FilesTotal(b, minDate, key)
    decreases |a|
  {
    if a == [] {
      assert |b| == |multiset(b)| == 0;
    } else {
      assert a[0] in multiset(b);
      var j :| 0 <= j < |b| && b[j] == a[0];
      MultisetRemove(a, b, j);
      FilesTotalPermutation(a[1..], b[..j] + b[j + 1..], minDate, key);
      FilesTotalSplit(b, j, minDate, key);
    }
  }

  /** Aggregation is order-independent: folding the same files in any order gives the same map. */
  lemma FoldFilesOrderIndependent(records: Records, a: seq<LogFile>, b: seq<LogFile>, minDate: Option<string>)
    requires multiset(a) == multiset(b)
    ensures FoldFiles(records, a, minDate) == FoldFiles(records, b, minDate)
  {
    var ra, rb := FoldFiles(records, a, minDate), FoldFiles(records, b, minDate);
    forall key
      ensures (key in ra <==> key in rb) && Get(ra, key) == Get(rb, key)
    {
      FoldFilesKeys(records, a, minDate, key);
      FoldFilesKeys(records, b, minDate, key);
      FoldFilesTotals(records, a, minDate, key);
      FoldFilesTotals(records, b, minDate, key);
      FilesTotalPermutation(a, b, minDate, key);
      assert FilesMention(a, minDate, key) <==> FilesMention(b, minDate, key) by {
        forall f ensures f in a <==> f in b {
          assert f in a <==> f in multiset(a);
          assert f in b <==> f in multiset(b);
        }
      }
    }
    assert ra.Keys == rb.Keys;
    forall key | key in ra ensures ra[key] == rb[key] {
      assert Get(ra, key) == Get(rb, key);
    }
  }

  lemma {:induction false} FoldFilesAppend(records: Records, a: seq<LogFile>, b: seq<LogFile>, minDate: Option<string>)
    ensures FoldFiles(records, a + b, minDate) == FoldFiles(FoldFiles(records, a, minDate), b, minDate)
    decreases |b|
  {
    if b == [] {
      assert a + b == a;
    } else {
      assert (a + b)[..|a + b| - 1] == a + b[..|b| - 1];
      assert (a + b)[|a + b| - 1] == b[|b| - 1];
      FoldFilesAppend(records, a, b[..|b| - 1], minDate);
    }
  }

  /** A file that cannot be read is skipped and the other files are still folded. */
  lemma UnreadableFileSkipped(records: Records, a: seq<LogFile>, f: LogFile, b: seq<LogFile>, minDate: Option<string>)
    requires f.content.None?
    ensures FoldFiles(records, a + [f] + b, minDate) == FoldFiles(records, a + b, minDate)
  {
    FoldFilesAppend(records, a + [f], b, minDate);
    FoldFilesAppend(records, a, [f], minDate);
    FoldFilesAppend(records, a, b, minDate);
    assert [f][..0] == [];
  }

  lemma FoldFilesSnoc(records: Records, files: seq<LogFile>, f: LogFile, minDate: Option<string>)
    ensures FoldFiles(records, files + [f], minDate) == FoldFile(FoldFiles(records, files, minDate), f, minDate)
  {
    assert (files + [f])[..|files|] == files;
  }

  /** The files modified after `cutoff`, in scan order. */
  function ModifiedSince(files: seq<LogFile>, cutoff: int): seq<LogFile>
    decreases |files|
  {
    if files == [] then []
    else
      var last := files[|files| - 1];
      ModifiedSince(files[..|files| - 1], cutoff) + (if last.mtime > cutoff as real then [last] else [])
  }

  /** Exactly the files whose modification time is strictly after the cutoff are kept. */
  lemma {:induction false} ModifiedSinceSelects(files: seq<LogFile>, cutoff: int, f: LogFile)
    ensures f in ModifiedSince(files, cutoff) <==> f in files && f.mtime > cutoff as real
    decreases |files|
  {
    if files != [] {
      var init := files[..|files| - 1];
      assert files == init + [files[|files| - 1]];
      ModifiedSinceSelects(init, cutoff, f);
    }
  }

  lemma ModifiedSinceStep(files: seq<LogFile>, i: nat, cutoff: int)
    requires i < |files|
    ensures ModifiedSince(files[..i + 1], cutoff)
         == ModifiedSince(files[..i], cutoff) + (if files[i].mtime > cutoff as real then [files[i]] else [])
  {
    assert files[..i + 1][..i] == files[..i];
  }

  // The two extraction entry points

  /** The records of a full extraction: every file found, no date floor. */
  function AllRecords(dir: string, root: Node): Records
  {
    FoldFiles(map[], JsonlFiles(dir, root), None)
  }

  /** The records of an incremental extraction: files modified after `lastSyncTime`, with events
      before `minDate` excluded. */
  function ModifiedRecords(dir: string, root: Node, lastSyncTime: int, minDate: Option<string>): Records
  {
    FoldFiles(map[], ModifiedSince(JsonlFiles(dir, root), lastSyncTime), minDate)
  }

  /** Folds the lines of `file` into `records`; None when the file cannot be read. */
  method ParseFileToRecords(file: LogFile, records: Records, minDate: Option<string>) returns (result: Option<Records>)
    ensures result.None? <==> file.content.None?
    ensures result.Some? ==> result.value == FoldLines(records, file.content.value, minDate)
  {
    if file.content.None? {
      return None;
    }
    var lines := file.content.value;
    var acc := records;
    for i := 0 to |lines|
      invariant acc == FoldLines(records, lines[..i], minDate)
    {
      FoldLinesStep(records, lines, i, minDate);
      var c := Extract(lines[i], minDate);
      if c.Some? {
        acc := AddInPlace(acc, c.value);
      }
    }
    assert lines[..|lines|] == lines;
    return Some(acc);
  }

  /** Full extraction over the log root `root` at path `dir`. */
  method ParseAllToRecords(dir: string, root: Node) returns (records: Records)
    ensures records == AllRecords(dir, root)
  {
    var files := FindJsonlFiles(dir, root);
    records := map[];
    for i := 0 to |files|
      invariant records == FoldFiles(map[], files[..i], None)
    {
      assert files[..i + 1][..i] == files[..i];
      var parsed := ParseFileToRecords(files[i], records, None);
      if parsed.Some? {
        records := parsed.value;
      }
    }
    assert files[..|files|] == files;
  }

  /** Incremental extraction: only files modified after `lastSyncTime`, with the date floor. */
  method ParseModifiedToRecords(dir: string, root: Node, lastSyncTime: int, minDate: Option<string>) returns (records: Records)
    ensures records == ModifiedRecords(dir, root, lastSyncTime, minDate)
  {
    var files := FindJsonlFiles(dir, root);
    records := map[];
    for i := 0 to |files|
      invariant records == FoldFiles(map[], ModifiedSince(files[..i], lastSyncTime), minDate)
    {
      ModifiedSinceStep(files, i, lastSyncTime);
      if files[i].mtime > lastSyncTime as real {
        FoldFilesSnoc(map[], ModifiedSince(files[..i], lastSyncTime), files[i], minDate);
        var parsed := ParseFileToRecords(files[i], records, minDate);
        if parsed.Some? {
          records := parsed.value;
        }
      } else {
        assert ModifiedSince(files[..i], lastSyncTime) + [] == ModifiedSince(files[..i], lastSyncTime);
      }
    }
    assert files[..|files|] == files;
  }
}
