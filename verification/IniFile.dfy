/** Loading an INI file into a dictionary and dumping a dictionary as one: the two undo each other on
    dictionaries that an INI file can express.  */
module IniFile {
  import opened Basics
  import opened IniText
  import opened Dictionary

  type Table = map<string, Value>

  // ----- iniparser_load -----

  /** The loop goes on, or has met a line without its end, or has written past the end of `tmp`. */
  datatype Status = Going | TooLong | Overflow

  /** The loop's variables: `pending` is a continued line's text. */
  datatype Loader = Loader(section: string, table: Table, pending: string, errs: int, status: Status)

  const START := Loader("", map[], "", 0, Going)

  /** What loading comes to: a dictionary, NULL, or a buffer overflow. */
  datatype Loaded = Returned(table: Table) | Null | Overflown

  /** `section:key` fits the buffer it is printed into. */
  predicate FitsTmp(section: string, key: string) {
    |section| + 1 + |key| <= ASCIILINESZ
  }

  /** How much one `fgets` takes: through the first newline, at most `room` characters. */
  function LineLength(text: string, room: nat): (k: nat)
    ensures k <= |text| && k <= room
    ensures text != "" && room > 0 ==> k > 0
  {
    if text == "" || room == 0 then 0
    else if text[0] == '\n' then 1
    else 1 + LineLength(text[1..], room - 1)
  }

  /** The body of the loop after the end of the line has been dealt with. */
  function StoreLine(st: Loader, line: string): Loader {
    match ParseLine(line, st.section)
    case Section(name) => st.(section := name, table := st.table[name := None], errs := 0, pending := "")
    case Entry(key, value) =>
      if !FitsTmp(st.section, key) then st.(status := Overflow, pending := "")
      else st.(table := st.table[st.section + ":" + key := Some(value)], errs := 0, pending := "")
    case Error => st.(errs := st.errs + 1, pending := "")
    case _ => st.(pending := "")
  }

  /** One turn of the loop on what `fgets` returned, up to storing a complete line. */
  function EndLine(store: (Loader, string) -> Loader, st: Loader, chunk: string): Loader {
    var line := st.pending + chunk;
    if |line| <= 1 then st
    else if line[|line| - 1] != '\n' then st.(status := TooLong)
    else
      var t := TrimRight(line);
      if t != "" && t[|t| - 1] == '\\' then st.(pending := t[..|t| - 1]) else store(st, t)
  }

  function LoadLine(st: Loader, chunk: string): Loader {
    EndLine(StoreLine, st, chunk)
  }

  /** The `fgets` loop around a loop body. */
  function LoadLoop(body: (Loader, string) -> Loader, st: Loader, text: string): Loader
    decreases |text|
  {
    var room := ASCIILINESZ - 1 - |st.pending|;
    if st.status != Going || text == "" || room <= 0 then st
    else
      var k := LineLength(text, room);
      LoadLoop(body, body(st, text[..k]), text[k..])
  }

  function LoadFrom(st: Loader, text: string): Loader {
    LoadLoop(LoadLine, st, text)
  }

  function Load(text: string): Loaded {
    var st := LoadFrom(START, text);
    if st.status == Overflow then Overflown
    else if st.status == TooLong || st.errs != 0 then Null
    else Returned(st.table)
  }

  // ----- iniparser_dump_ini -----

  type Slots = seq<Option<string>>

  predicate IsSection(k: Option<string>) {
    k.Some? && ':' !in k.value
  }

  /** Names of the sections in slot order from slot `j` on. */
  function Sections(keys: Slots, j: nat): seq<string>
    requires j <= |keys|
    decreases |keys| - j
  {
    if j == |keys| then []
    else (if IsSection(keys[j]) then [keys[j].value] else []) + Sections(keys, j + 1)
  }

  predicate InSection(k: Option<string>, sec: string) {
    k.Some? && sec + ":" <= k.value
  }

  function Text(v: Value): string {
    if v.Some? then v.value else ""
  }

  /** A section's line, and an entry's. */
  function Header(sec: string): string {
    "[" + sec + "]\n"
  }

  function Setting(key: string, value: string): string {
    Pad(key) + " = " + value + "\n"
  }

  function DumpKeys(keys: Slots, vals: seq<Value>, sec: string, j: nat): string
    requires j <= |keys| == |vals|
    decreases |keys| - j
  {
    if j == |keys| then ""
    else
      (if InSection(keys[j], sec) then Setting(keys[j].value[|sec| + 1..], Text(vals[j])) else "") +
      DumpKeys(keys, vals, sec, j + 1)
  }

  function DumpSection(keys: Slots, vals: seq<Value>, sec: string): string
    requires |keys| == |vals|
  {
    if Some(LowerCase(sec)) !in keys then ""
    else "\n" + (Header(sec) + (DumpKeys(keys, vals, sec, 0) + "\n"))
  }

  /** `sec:` fits the buffer that dumping the section prints it into. */
  predicate FitsKeym(keys: Slots, sec: string) {
    Some(LowerCase(sec)) in keys ==> |sec| + 1 <= ASCIILINESZ
  }

  predicate AllFitKeym(keys: Slots, secs: seq<string>) {
    forall s :: s in secs ==> FitsKeym(keys, s)
  }

  function DumpSections(keys: Slots, vals: seq<Value>, secs: seq<string>): string
    requires |keys| == |vals|
    decreases |secs|
  {
    if secs == [] then "\n" else DumpSection(keys, vals, secs[0]) + DumpSections(keys, vals, secs[1..])
  }

  function FlatLine(k: string, v: Value): string {
    k + " = " + (if v.Some? then v.value else "(null)") + "\n"
  }

  /** No section: every entry as it is, NULL printed as C's library does. */
  function DumpFlat(keys: Slots, vals: seq<Value>, j: nat): string
    requires j <= |keys| == |vals|
    decreases |keys| - j
  {
    if j == |keys| then ""
    else
      (if keys[j].Some? then FlatLine(keys[j].value, vals[j]) else "") +
      DumpFlat(keys, vals, j + 1)
  }

  function Dump(keys: Slots, vals: seq<Value>): string
    requires |keys| == |vals|
  {
    if Sections(keys, 0) == [] then DumpFlat(keys, vals, 0) else DumpSections(keys, vals, Sections(keys, 0))
  }

  // ----- what can be expressed -----

  /** The section part of a full key, up to its first colon. */
  predicate SafeEntry(k: string, v: Value, sec: string) {
    SafeSection(sec) && sec + ":" <= k && SafeKey(k[|sec| + 1..]) && v.Some? && SafeValue(v.value) &&
    |Pad(k[|sec| + 1..])| + |v.value| + 4 <= ASCIILINESZ - 1
  }

  /** Every slot is a safe section without value, or a safe entry of a section that is there. */
  ghost predicate Expressible(keys: Slots, vals: seq<Value>) {
    |keys| == |vals| && Sections(keys, 0) != [] &&
    forall j :: 0 <= j < |keys| && keys[j].Some? ==>
      if ':' !in keys[j].value then SafeSection(keys[j].value) && vals[j].None?
      else exists sec :: Some(sec) in keys && SafeEntry(keys[j].value, vals[j], sec)
  }

  // ----- reading back what was printed -----

  /** Nothing is pending and nothing failed: the next characters start a fresh line. */
  predicate Fresh(st: Loader) {
    st.pending == "" && st.status == Going && st.errs == 0
  }

  lemma {:induction false} LineUpTo(line: string, rest: string, room: nat)
    requires '\n' !in line && |line| + 1 <= room
    ensures LineLength(line + "\n" + rest, room) == |line| + 1
    decreases |line|
  {
    var text := line + "\n" + rest;
    if line == "" {
    } else {
      assert text[1..] == line[1..] + "\n" + rest;
      assert line[0] in line;
      LineUpTo(line[1..], rest, room - 1);
    }
  }

  /** `fgets` hands over a whole line, and the loop body sees it alone. */
  lemma NextLine(body: (Loader, string) -> Loader, st: Loader, line: string, rest: string)
    requires st.pending == "" && st.status == Going && '\n' !in line && |line| + 1 <= ASCIILINESZ - 1
    ensures LoadLoop(body, st, line + "\n" + rest) == LoadLoop(body, body(st, line + "\n"), rest)
  {
    var text := line + "\n" + rest;
    LineUpTo(line, rest, ASCIILINESZ - 1);
    assert text[..|line| + 1] == line + "\n" && text[|line| + 1..] == rest;
  }

  function Enter(st: Loader, sec: string): Loader {
    st.(section := sec, table := st.table[sec := None])
  }

  function Assigned(st: Loader, key: string, value: string): Loader {
    if !FitsTmp(st.section, key) then st.(status := Overflow)
    else st.(table := st.table[st.section + ":" + key := Some(value)])
  }

  lemma ReadsBlank(st: Loader)
    requires Fresh(st)
    ensures LoadLine(st, "\n") == st
  {
    assert st.pending + "\n" == "\n";
  }

  lemma ReadsHeader(st: Loader, sec: string)
    requires Fresh(st) && SafeSection(sec)
    ensures LoadLine(st, Header(sec)) == Enter(st, sec)
  {
    var line := "[" + sec + "]";
    assert st.pending + Header(sec) == line + "\n";
    TrimRightSpaces(line, "\n");
    SectionLine(sec, st.section);
  }

  lemma LineStored(store: (Loader, string) -> Loader, st: Loader, line: string)
    requires Fresh(st) && line != "" && TrimRight(line) != "" && TrimRight(line)[|TrimRight(line)| - 1] != '\\'
    ensures EndLine(store, st, line + "\n") == store(st, TrimRight(line))
  {
    TrimNewline(line);
    LineEnds(store, st, line + "\n", TrimRight(line));
  }

  lemma LineEnds(store: (Loader, string) -> Loader, st: Loader, chunk: string, trimmed: string)
    requires st.pending == "" && |chunk| > 1 && chunk[|chunk| - 1] == '\n' && trimmed == TrimRight(chunk)
    requires trimmed != "" && trimmed[|trimmed| - 1] != '\\'
    ensures EndLine(store, st, chunk) == store(st, trimmed)
  {
    assert st.pending + chunk == chunk;
  }

  lemma TrimNewline(line: string)
    ensures TrimRight(line + "\n") == TrimRight(line)
  {
    assert (line + "\n")[..|line|] == line;
  }

  lemma ReadsSetting(st: Loader, key: string, value: string)
    requires Fresh(st) && SafeKey(key) && SafeValue(value)
    ensures LoadLine(st, Setting(key, value)) == Assigned(st, key, value)
  {
    var line := Pad(key) + " = " + value;
    EntryLine(key, value, st.section);
    LineStored(StoreLine, st, line);
    StoresEntry(st, TrimRight(line), key, value);
  }

  lemma StoresEntry(st: Loader, line: string, key: string, value: string)
    requires Fresh(st) && ParseLine(line, st.section) == Entry(key, value)
    ensures StoreLine(st, line) == Assigned(st, key, value)
  {
  }

  /** Something that consumes printed text line by line, as the loader does. */
  ghost predicate Consumes(run: (Loader, string) -> Loader) {
    (forall st :: run(st, "") == st) &&
    (forall st: Loader, rest :: st.status != Going ==> run(st, rest) == st) &&
    (forall st, rest :: Fresh(st) ==> run(st, "\n" + rest) == run(st, rest)) &&
    (forall st, sec, rest :: Fresh(st) && SafeSection(sec) ==>
      run(st, Header(sec) + rest) == run(Enter(st, sec), rest)) &&
    (forall st, key, value, rest ::
      Fresh(st) && SafeKey(key) && SafeValue(value) && |Pad(key)| + |value| + 4 <= ASCIILINESZ - 1 ==>
        run(st, Setting(key, value) + rest) == run(Assigned(st, key, value), rest))
  }

  lemma LoadBlank(st: Loader, rest: string)
    requires Fresh(st)
    ensures LoadFrom(st, "\n" + rest) == LoadFrom(st, rest)
  {
    ReadsBlank(st);
    NextLine(LoadLine, st, "", rest);
    assert "" + "\n" + rest == "\n" + rest && "" + "\n" == "\n";
  }

  lemma LoadHeader(st: Loader, sec: string, rest: string)
    requires Fresh(st) && SafeSection(sec)
    ensures LoadFrom(st, Header(sec) + rest) == LoadFrom(Enter(st, sec), rest)
  {
    ReadsHeader(st, sec);
    NextLine(LoadLine, st, "[" + sec + "]", rest);
    assert "[" + sec + "]" + "\n" == Header(sec);
  }

  lemma LoadSetting(st: Loader, key: string, value: string, rest: string)
    requires Fresh(st) && SafeKey(key) && SafeValue(value) && |Pad(key)| + |value| + 4 <= ASCIILINESZ - 1
    ensures LoadFrom(st, Setting(key, value) + rest) == LoadFrom(Assigned(st, key, value), rest)
  {
    ReadsSetting(st, key, value);
    NoNewline(key, value);
    NextLine(LoadLine, st, Pad(key) + " = " + value, rest);
  }

  lemma LoadConsumes()
    ensures Consumes(LoadFrom)
  {
    forall st, rest | Fresh(st) ensures LoadFrom(st, "\n" + rest) == LoadFrom(st, rest) { LoadBlank(st, rest); }
    forall st, sec, rest | Fresh(st) && SafeSection(sec)
      ensures LoadFrom(st, Header(sec) + rest) == LoadFrom(Enter(st, sec), rest)
    {
      LoadHeader(st, sec, rest);
    }
    forall st, key, value, rest |
      Fresh(st) && SafeKey(key) && SafeValue(value) && |Pad(key)| + |value| + 4 <= ASCIILINESZ - 1
      ensures LoadFrom(st, Setting(key, value) + rest) == LoadFrom(Assigned(st, key, value), rest)
    {
      LoadSetting(st, key, value, rest);
    }
  }

  lemma NoNewline(key: string, value: string)
    requires SafeKey(key) && SafeValue(value)
    ensures '\n' !in Pad(key) + " = " + value
  {
    var line := Pad(key) + " = " + value;
    forall i | 0 <= i < |line|
      ensures line[i] != '\n'
    {
      if i < |key| {
        assert line[i] == key[i];
      } else if i >= |Pad(key)| + 3 {
        assert line[i] == value[i - |Pad(key)| - 3];
      }
    }
  }

  // ----- whole sections -----

  /** The table after the entries of `sec` from slot `j` on. */
  function WithKeys(m: Table, keys: Slots, vals: seq<Value>, sec: string, j: nat): Table
    requires j <= |keys| == |vals|
    decreases |keys| - j
  {
    if j == |keys| then m
    else WithKeys(if InSection(keys[j], sec) then m[keys[j].value := vals[j]] else m, keys, vals, sec, j + 1)
  }

  function WithSections(m: Table, keys: Slots, vals: seq<Value>, secs: seq<string>): Table
    requires |keys| == |vals|
    decreases |secs|
  {
    if secs == [] then m
    else WithSections(WithKeys(m[secs[0] := None], keys, vals, secs[0], 0), keys, vals, secs[1..])
  }

  /** A key has one section: the colon after it is the key's first. */
  lemma SameSection(k: string, s: string, t: string)
    requires s + ":" <= k && t + ":" <= k && ':' !in s && ':' !in t
    ensures s == t
  {
    assert k[|s|] == (s + ":")[|s|] && k[|t|] == (t + ":")[|t|];
    assert s == k[..|s|] && t == k[..|t|];
  }

  lemma EntryOfSection(keys: Slots, vals: seq<Value>, sec: string, j: nat)
    requires Expressible(keys, vals) && SafeSection(sec) && j < |keys| && InSection(keys[j], sec)
    ensures SafeEntry(keys[j].value, vals[j], sec)
  {
    var k := keys[j].value;
    assert (sec + ":")[|sec|] == ':' && k[|sec|] == ':';
    assert ':' in k;
    var t :| Some(t) in keys && SafeEntry(k, vals[j], t);
    SameSection(k, sec, t);
  }

  lemma RunBlank(run: (Loader, string) -> Loader, st: Loader, rest: string)
    requires Consumes(run) && Fresh(st)
    ensures run(st, "\n" + rest) == run(st, rest)
  {
  }

  lemma RunHeader(run: (Loader, string) -> Loader, st: Loader, sec: string, rest: string)
    requires Consumes(run) && Fresh(st) && SafeSection(sec)
    ensures run(st, Header(sec) + rest) == run(Enter(st, sec), rest)
  {
  }

  /** An entry's line: stored, or the end of everything. */
  lemma RunSetting(run: (Loader, string) -> Loader, st: Loader, k: string, v: Value, rest: string)
    requires Consumes(run) && Fresh(st) && SafeEntry(k, v, st.section)
    ensures var st' := run(st, Setting(k[|st.section| + 1..], v.value) + rest);
      if |k| <= ASCIILINESZ then st' == run(st.(table := st.table[k := v]), rest) else st'.status == Overflow
  {
    assert st.section + ":" + k[|st.section| + 1..] == k;
  }

  /** The text of slot `j` comes first. */
  lemma SlotText(keys: Slots, vals: seq<Value>, sec: string, j: nat, rest: string)
    requires j < |keys| == |vals|
    ensures var tail := DumpKeys(keys, vals, sec, j + 1) + rest;
      DumpKeys(keys, vals, sec, j) + rest ==
      if InSection(keys[j], sec) then Setting(keys[j].value[|sec| + 1..], Text(vals[j])) + tail else tail
  {
    var tail := DumpKeys(keys, vals, sec, j + 1);
    if InSection(keys[j], sec) {
      var line := Setting(keys[j].value[|sec| + 1..], Text(vals[j]));
      assert line + tail + rest == line + (tail + rest);
    } else {
      assert "" + tail == tail;
    }
  }

  /** Every entry of `sec` from slot `j` on fits the loader's buffer. */
  predicate KeysFit(keys: Slots, sec: string, j: nat) {
    forall i :: j <= i < |keys| && InSection(keys[i], sec) ==> |keys[i].value| <= ASCIILINESZ
  }

  /** The loader after slot `j` of the dump: printed and read back, or skipped. */
  function AfterSlot(st: Loader, keys: Slots, vals: seq<Value>, j: nat): Loader
    requires j < |keys| == |vals|
  {
    if InSection(keys[j], st.section) then st.(table := st.table[keys[j].value := vals[j]]) else st
  }

  lemma RunSlot(run: (Loader, string) -> Loader, st: Loader, keys: Slots, vals: seq<Value>, j: nat, rest: string)
    requires Consumes(run) && Fresh(st) && j < |keys| == |vals|
    requires InSection(keys[j], st.section) ==> SafeEntry(keys[j].value, vals[j], st.section)
    ensures var end := run(st, DumpKeys(keys, vals, st.section, j) + rest);
      if InSection(keys[j], st.section) && |keys[j].value| > ASCIILINESZ then end.status == Overflow
      else end == run(AfterSlot(st, keys, vals, j), DumpKeys(keys, vals, st.section, j + 1) + rest)
  {
    SlotText(keys, vals, st.section, j, rest);
    if InSection(keys[j], st.section) {
      RunSetting(run, st, keys[j].value, vals[j], DumpKeys(keys, vals, st.section, j + 1) + rest);
    }
  }

  lemma {:induction false} LoadKeys(run: (Loader, string) -> Loader, st: Loader, keys: Slots, vals: seq<Value>,
                                    j: nat, rest: string)
    requires Consumes(run) && Fresh(st) && Expressible(keys, vals) && SafeSection(st.section) && j <= |keys|
    ensures var end := run(st, DumpKeys(keys, vals, st.section, j) + rest);
      if KeysFit(keys, st.section, j) then
        end == run(st.(table := WithKeys(st.table, keys, vals, st.section, j)), rest)
      else end.status == Overflow
    decreases |keys| - j
  {
    if j == |keys| {
      assert "" + rest == rest;
    } else {
      if InSection(keys[j], st.section) {
        EntryOfSection(keys, vals, st.section, j);
      }
      RunSlot(run, st, keys, vals, j, rest);
      if !(InSection(keys[j], st.section) && |keys[j].value| > ASCIILINESZ) {
        LoadKeys(run, AfterSlot(st, keys, vals, j), keys, vals, j + 1, rest);
      }
    }
  }

  /** The loader after one section. */
  function AfterSection(st: Loader, keys: Slots, vals: seq<Value>, sec: string): Loader
    requires |keys| == |vals|
  {
    st.(section := sec, table := WithKeys(st.table[sec := None], keys, vals, sec, 0))
  }

  lemma SectionText(keys: Slots, vals: seq<Value>, sec: string, rest: string)
    requires |keys| == |vals| && LowerCase(sec) == sec && Some(sec) in keys
    ensures DumpSection(keys, vals, sec) + rest ==
      "\n" + (Header(sec) + (DumpKeys(keys, vals, sec, 0) + ("\n" + rest)))
  {
    FourParts("\n", Header(sec), DumpKeys(keys, vals, sec, 0), "\n", rest);
  }

  lemma FourParts(a: string, b: string, c: string, d: string, e: string)
    ensures a + (b + (c + d)) + e == a + (b + (c + (d + e)))
  {
  }

  lemma LoadOneSection(run: (Loader, string) -> Loader, st: Loader, keys: Slots, vals: seq<Value>, sec: string,
                       rest: string)
    requires Consumes(run) && Fresh(st) && Expressible(keys, vals) && SafeSection(sec) && Some(sec) in keys
    ensures var end := run(st, DumpSection(keys, vals, sec) + rest);
      if KeysFit(keys, sec, 0) then end == run(AfterSection(st, keys, vals, sec), rest)
      else end.status == Overflow
  {
    var text2 := "\n" + rest;
    var text1 := DumpKeys(keys, vals, sec, 0) + text2;
    SectionText(keys, vals, sec, rest);
    RunBlank(run, st, Header(sec) + text1);
    RunHeader(run, st, sec, text1);
    LoadKeys(run, Enter(st, sec), keys, vals, 0, text2);
    RunBlank(run, AfterSection(st, keys, vals, sec), rest);
  }

  predicate SectionsFit(keys: Slots, secs: seq<string>) {
    forall s :: s in secs ==> KeysFit(keys, s, 0)
  }

  lemma SectionsFitHead(keys: Slots, secs: seq<string>)
    requires secs != []
    ensures SectionsFit(keys, secs) <==> KeysFit(keys, secs[0], 0) && SectionsFit(keys, secs[1..])
  {
    assert secs == [secs[0]] + secs[1..];
  }

  lemma {:induction false} LoadSections(run: (Loader, string) -> Loader, st: Loader, keys: Slots, vals: seq<Value>,
                                        secs: seq<string>)
    requires Consumes(run) && Fresh(st) && Expressible(keys, vals)
    requires forall s :: s in secs ==> SafeSection(s) && Some(s) in keys
    ensures var end := run(st, DumpSections(keys, vals, secs));
      if SectionsFit(keys, secs) then
        Fresh(end) && end.table == WithSections(st.table, keys, vals, secs)
      else end.status == Overflow
    decreases |secs|
  {
    if secs == [] {
      assert "\n" + "" == "\n";
    } else {
      var sec := secs[0];
      SectionsFitHead(keys, secs);
      LoadOneSection(run, st, keys, vals, sec, DumpSections(keys, vals, secs[1..]));
      if KeysFit(keys, sec, 0) {
        LoadSections(run, AfterSection(st, keys, vals, sec), keys, vals, secs[1..]);
      }
    }
  }

  // ----- nothing is lost and nothing is added -----

  lemma SlotWithin(m: Table, keys: Slots, vals: seq<Value>, hashes: seq<bv32>, j: nat, all: Table)
    requires Represents(keys, vals, hashes, all) && Within(m, all) && j < |keys| && keys[j].Some?
    ensures Within(m[keys[j].value := vals[j]], all) && Within(m, m[keys[j].value := vals[j]])
  {
  }

  lemma {:induction false} WithKeysWithin(m: Table, keys: Slots, vals: seq<Value>, hashes: seq<bv32>, sec: string,
                                          j: nat, all: Table)
    requires Represents(keys, vals, hashes, all) && Within(m, all) && j <= |keys|
    ensures var r := WithKeys(m, keys, vals, sec, j);
      Within(m, r) && Within(r, all) &&
      forall i :: j <= i < |keys| && InSection(keys[i], sec) ==> keys[i].value in r
    decreases |keys| - j
  {
    if j == |keys| {
    } else {
      if InSection(keys[j], sec) {
        SlotWithin(m, keys, vals, hashes, j, all);
        WithKeysWithin(m[keys[j].value := vals[j]], keys, vals, hashes, sec, j + 1, all);
      } else {
        WithKeysWithin(m, keys, vals, hashes, sec, j + 1, all);
      }
    }
  }

  lemma {:induction false} WithSectionsWithin(m: Table, keys: Slots, vals: seq<Value>, hashes: seq<bv32>,
                                              secs: seq<string>, all: Table)
    requires Represents(keys, vals, hashes, all) && Within(m, all)
    requires forall s :: s in secs ==> s in all && all[s] == None
    ensures var r := WithSections(m, keys, vals, secs);
      Within(m, r) && Within(r, all) && (forall s :: s in secs ==> s in r) &&
      forall i, s :: 0 <= i < |keys| && s in secs && InSection(keys[i], s) ==> keys[i].value in r
    decreases |secs|
  {
    if secs == [] {
    } else {
      var m1 := m[secs[0] := None];
      WithKeysWithin(m1, keys, vals, hashes, secs[0], 0, all);
      var m2 := WithKeys(m1, keys, vals, secs[0], 0);
      WithSectionsWithin(m2, keys, vals, hashes, secs[1..], all);
      forall i, s | 0 <= i < |keys| && s in secs && InSection(keys[i], s)
        ensures keys[i].value in WithSections(m, keys, vals, secs)
      {
        assert s == secs[0] || s in secs[1..];
      }
    }
  }

  lemma {:induction false} SectionsAre(keys: Slots, j: nat, name: string)
    requires j <= |keys|
    ensures name in Sections(keys, j) <==> ':' !in name && Some(name) in keys[j..]
    decreases |keys| - j
  {
    if j == |keys| {
    } else {
      SectionsAre(keys, j + 1, name);
      assert keys[j..] == [keys[j]] + keys[j + 1..];
    }
  }

  lemma AllSections(keys: Slots)
    ensures forall s :: s in Sections(keys, 0) <==> ':' !in s && Some(s) in keys
  {
    forall s
      ensures s in Sections(keys, 0) <==> ':' !in s && Some(s) in keys
    {
      SectionsAre(keys, 0, s);
      assert keys[0..] == keys;
    }
  }

  /** Every key is a section or lies in one. */
  lemma Covered(keys: Slots, vals: seq<Value>, i: nat) returns (s: string)
    requires Expressible(keys, vals) && i < |keys| && keys[i].Some?
    ensures s in Sections(keys, 0) && (keys[i].value == s || InSection(keys[i], s))
  {
    AllSections(keys);
    var k := keys[i].value;
    if ':' in k {
      s :| Some(s) in keys && SafeEntry(k, vals[i], s);
    } else {
      s := k;
    }
  }

  lemma SectionsSafe(keys: Slots, vals: seq<Value>, hashes: seq<bv32>, all: Table, s: string)
    requires Represents(keys, vals, hashes, all) && Expressible(keys, vals) && s in Sections(keys, 0)
    ensures SafeSection(s) && Some(s) in keys && s in all && all[s] == None
  {
    AllSections(keys);
    var i :| 0 <= i < |keys| && keys[i] == Some(s);
  }

  /** The sections and their entries make up the whole table. */
  lemma SectionsRestore(keys: Slots, vals: seq<Value>, hashes: seq<bv32>, all: Table)
    requires Represents(keys, vals, hashes, all) && Expressible(keys, vals)
    ensures WithSections(map[], keys, vals, Sections(keys, 0)) == all
  {
    var secs := Sections(keys, 0);
    forall s | s in secs
      ensures s in all && all[s] == None
    {
      SectionsSafe(keys, vals, hashes, all, s);
    }
    WithSectionsWithin(map[], keys, vals, hashes, secs, all);
    var r := WithSections(map[], keys, vals, secs);
    NothingLost(keys, vals, hashes, all, r);
    assert r == all;
  }

  /** A table with every section and every entry of a section has every key. */
  lemma NothingLost(keys: Slots, vals: seq<Value>, hashes: seq<bv32>, all: Table, r: Table)
    requires Represents(keys, vals, hashes, all) && Expressible(keys, vals)
    requires forall s :: s in Sections(keys, 0) ==> s in r
    requires forall i, s :: 0 <= i < |keys| && s in Sections(keys, 0) && InSection(keys[i], s) ==> keys[i].value in r
    ensures forall k :: k in all ==> k in r
  {
    forall k | k in all
      ensures k in r
    {
      var i :| 0 <= i < |keys| && keys[i] == Some(k);
      var s := Covered(keys, vals, i);
    }
  }

  /** All keys fit the loader's buffer if those in the sections do. */
  lemma AllKeysFit(keys: Slots, vals: seq<Value>, hashes: seq<bv32>, all: Table)
    requires Represents(keys, vals, hashes, all) && Expressible(keys, vals)
    ensures SectionsFit(keys, Sections(keys, 0)) <==>
            (forall k :: k in all ==> |k| <= ASCIILINESZ)
  {
    forall k | k in all && SectionsFit(keys, Sections(keys, 0))
      ensures |k| <= ASCIILINESZ
    {
      var i :| 0 <= i < |keys| && keys[i] == Some(k);
      var s := Covered(keys, vals, i);
      if k == s {
        SectionsSafe(keys, vals, hashes, all, s);
      }
    }
  }

  /** Loading the dump of an expressible dictionary gives the same map if and only if every key, section
      included, fits the loader's buffer; if one does not, loading writes past the end of it. */
  lemma DumpLoadRoundTrip(keys: Slots, vals: seq<Value>, hashes: seq<bv32>, all: Table)
    requires Represents(keys, vals, hashes, all) && Expressible(keys, vals)
    ensures Load(Dump(keys, vals)) ==
      if forall k :: k in all ==> |k| <= ASCIILINESZ then Returned(all) else Overflown
  {
    var secs := Sections(keys, 0);
    forall s | s in secs
      ensures SafeSection(s) && Some(s) in keys
    {
      SectionsSafe(keys, vals, hashes, all, s);
    }
    LoadConsumes();
    LoadSections(LoadFrom, START, keys, vals, secs);
    AllKeysFit(keys, vals, hashes, all);
    SectionsRestore(keys, vals, hashes, all);
  }

  function Repeated(c: char, n: nat): (s: string)
    ensures |s| == n && forall i :: 0 <= i < n ==> s[i] == c
  {
    seq(n, _ => c)
  }

  lemma LongNames(sec: string, key: string)
    requires sec == Repeated('a', 600) && key == Repeated('b', 600)
    ensures SafeSection(sec) && SafeKey(key) && Pad(key) == key && ':' !in sec
    ensures SafeEntry(sec + ":" + key, Some("v"), sec)
  {
    assert LowerCase(sec) == sec && LowerCase(key) == key;
    assert (sec + ":" + key)[..601] == sec + ":" && (sec + ":" + key)[601..] == key;
  }

  lemma OneEntryExpressible(sec: string, k: string, v: Value)
    requires SafeSection(sec) && SafeEntry(k, v, sec) && ':' in k
    ensures Expressible([Some(sec), Some(k)], [None, v])
  {
    var keys: Slots, vals: seq<Value> := [Some(sec), Some(k)], [None, v];
    assert keys[0] == Some(sec) && Some(sec) in keys;
    AllSections(keys);
    assert sec in Sections(keys, 0);
  }

  lemma OneEntryRepresents(sec: string, k: string, v: Value)
    requires sec != k
    ensures Represents([Some(sec), Some(k)], [None, v], [Hash(sec), Hash(k)], map[sec := None, k := v])
  {
    var keys: Slots := [Some(sec), Some(k)];
    assert keys[0] == Some(sec) && keys[1] == Some(k);
  }

  /** Names of 600 characters each: every line of the dump fits, their join does not. */
  lemma LongKeyOverflows()
    ensures var sec, key := Repeated('a', 600), Repeated('b', 600);
      var keys, vals := [Some(sec), Some(sec + ":" + key)], [None, Some("v")];
      Expressible(keys, vals) && Load(Dump(keys, vals)) == Overflown
  {
    var sec, key := Repeated('a', 600), Repeated('b', 600);
    var k := sec + ":" + key;
    LongNames(sec, key);
    assert k[600] == ':';
    OneEntryExpressible(sec, k, Some("v"));
    OneEntryRepresents(sec, k, Some("v"));
    var all: Table := map[sec := None, k := Some("v")];
    assert k in all && |k| == 1201;
    DumpLoadRoundTrip([Some(sec), Some(k)], [None, Some("v")], [Hash(sec), Hash(k)], all);
  }
}
