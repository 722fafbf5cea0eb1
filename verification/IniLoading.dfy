/** What the loader makes of whole files: long and unfinished lines, continuation lines, syntax errors, and
    the dump of a dictionary without sections. */
module IniLoading {
  import opened Basics
  import opened IniText
  import opened IniReader
  import opened Dictionary
  import opened IniFile

  /** Between lines. */
  predicate Idle(st: Loader) {
    st.pending == "" && st.status == Going
  }

  // ----- lines without an end -----

  lemma {:induction false} LineLengthNoEnd(text: string, rest: string, room: nat)
    requires '\n' !in text && (|text| >= room || rest == "")
    ensures LineLength(text + rest, room) == Min(|text|, room)
    decreases |text|
  {
    if text == "" || room == 0 {
      assert text == "" ==> text + rest == rest;
    } else {
      assert (text + rest)[0] == text[0] && text[0] in text;
      assert (text + rest)[1..] == text[1..] + rest;
      LineLengthNoEnd(text[1..], rest, room - 1);
    }
  }

  lemma EndsWithoutNewline(store: (Loader, string) -> Loader, st: Loader, chunk: string)
    requires st.pending == "" && chunk != "" && chunk[|chunk| - 1] != '\n'
    ensures EndLine(store, st, chunk) == if |chunk| == 1 then st else st.(status := TooLong)
  {
    assert st.pending + chunk == chunk;
  }

  lemma FirstChunk(body: (Loader, string) -> Loader, st: Loader, text: string)
    requires Idle(st) && text != ""
    ensures var k := LineLength(text, ASCIILINESZ - 1);
      k <= |text| && LoadLoop(body, st, text) == LoadLoop(body, body(st, text[..k]), text[k..])
  {
  }

  /** A line of 1023 characters or more stops the loader, wherever it ends. */
  lemma LongLine(st: Loader, line: string, rest: string)
    requires Idle(st) && '\n' !in line && |line| >= ASCIILINESZ - 1
    ensures LoadFrom(st, line + rest) == st.(status := TooLong)
  {
    var text, chunk := line + rest, line[..ASCIILINESZ - 1];
    LineLengthNoEnd(line, rest, ASCIILINESZ - 1);
    FirstChunk(LoadLine, st, text);
    assert text[..ASCIILINESZ - 1] == chunk && chunk[ASCIILINESZ - 2] in line;
    EndsWithoutNewline(StoreLine, st, chunk);
  }

  /** So does a last line without newline, unless it is a single character: that one is ignored. */
  lemma LastLine(st: Loader, text: string)
    requires Idle(st) && '\n' !in text && text != ""
    ensures LoadFrom(st, text) == if |text| == 1 then st else st.(status := TooLong)
  {
    var chunk := text[..Min(|text|, ASCIILINESZ - 1)];
    assert text + "" == text;
    LineLengthNoEnd(text, "", ASCIILINESZ - 1);
    FirstChunk(LoadLine, st, text);
    assert chunk[|chunk| - 1] in text;
    EndsWithoutNewline(StoreLine, st, chunk);
    if |text| == 1 {
      assert text[1..] == "";
    }
  }

  // ----- continuation lines -----

  /** A line that ends with a backslash, blanks aside. */
  predicate Continues(line: string) {
    TrimRight(line) != "" && TrimRight(line)[|TrimRight(line)| - 1] == '\\'
  }

  /** What of it goes on in the next line. */
  function Carried(line: string): string
    requires Continues(line)
  {
    TrimRight(line)[..|TrimRight(line)| - 1]
  }

  lemma CarriesOver(store: (Loader, string) -> Loader, st: Loader, line: string)
    requires st.pending == "" && Continues(line)
    ensures EndLine(store, st, line + "\n") == st.(pending := Carried(line))
  {
    TrimNewline(line);
    assert st.pending + (line + "\n") == line + "\n";
  }

  /** A pending text and the next line are one line. */
  lemma JoinedLine(st: Loader, front: string, line: string)
    requires st.pending == ""
    ensures LoadLine(st.(pending := front), line + "\n") == LoadLine(st, front + line + "\n")
  {
    forall t ensures StoreLine(st.(pending := front), t) == StoreLine(st, t) { StoreForgets(st, front, t); }
    JoinedEnd(StoreLine, st, front, line + "\n");
    assert front + (line + "\n") == front + line + "\n";
  }

  lemma StoreForgets(st: Loader, front: string, line: string)
    ensures StoreLine(st.(pending := front), line) == StoreLine(st, line)
  {
  }

  lemma JoinedEnd(store: (Loader, string) -> Loader, st: Loader, front: string, chunk: string)
    requires st.pending == "" && |chunk| > 0 && chunk[|chunk| - 1] == '\n'
    requires forall t :: store(st.(pending := front), t) == store(st, t)
    ensures EndLine(store, st.(pending := front), chunk) == EndLine(store, st, front + chunk)
  {
    assert st.pending + (front + chunk) == front + chunk;
    assert |front + chunk| <= 1 ==> front == "";
  }

  lemma PendingChunk(body: (Loader, string) -> Loader, st: Loader, front: string, line: string, rest: string)
    requires Idle(st) && '\n' !in line && |front| + |line| + 1 <= ASCIILINESZ - 1
    ensures LoadLoop(body, st.(pending := front), line + "\n" + rest) ==
      LoadLoop(body, body(st.(pending := front), line + "\n"), rest)
  {
    var text := line + "\n" + rest;
    LineUpTo(line, rest, ASCIILINESZ - 1 - |front|);
    assert text[..|line| + 1] == line + "\n" && text[|line| + 1..] == rest;
  }

  /** A backslash at the end of a line joins it with the next one: the file reads as if the two had been
      one, as long as that one fits the buffer. */
  lemma Continuation(st: Loader, line: string, next: string, rest: string)
    requires Idle(st) && '\n' !in line && '\n' !in next && Continues(line) && |line| + 1 <= ASCIILINESZ - 1
    requires |Carried(line)| + |next| + 1 <= ASCIILINESZ - 1
    ensures LoadFrom(st, line + "\n" + (next + "\n" + rest)) == LoadFrom(st, Carried(line) + next + "\n" + rest)
  {
    var front := Carried(line);
    NextLine(LoadLine, st, line, next + "\n" + rest);
    CarriesOver(StoreLine, st, line);
    PendingChunk(LoadLine, st, front, next, rest);
    JoinedLine(st, front, next);
    assert front <= line;
    NextLine(LoadLine, st, front + next, rest);
  }

  // ----- syntax errors -----

  /** A line that `fgets` takes whole and that does not go on in the next one. */
  predicate Whole(line: string) {
    '\n' !in line && |line| + 1 <= ASCIILINESZ - 1 && !Continues(line)
  }

  function Join(lines: seq<string>): string
    decreases |lines|
  {
    if lines == [] then "" else lines[0] + "\n" + Join(lines[1..])
  }

  /** The loader after one whole line. */
  function AfterLine(st: Loader, line: string): Loader {
    if line == "" then st else StoreLine(st, TrimRight(line))
  }

  function AfterLines(st: Loader, lines: seq<string>): Loader
    decreases |lines|
  {
    if lines == [] || st.status != Going then st else AfterLines(AfterLine(st, lines[0]), lines[1..])
  }

  lemma WholeLine(st: Loader, line: string)
    requires Idle(st) && Whole(line)
    ensures LoadLine(st, line + "\n") == AfterLine(st, line)
  {
    assert st.pending + (line + "\n") == line + "\n";
    TrimNewline(line);
    if line != "" && TrimRight(line) == "" {
      assert Strip("") == "";
    }
  }

  lemma {:induction false} LoadsLines(st: Loader, lines: seq<string>)
    requires Idle(st) && forall l :: l in lines ==> Whole(l)
    ensures LoadFrom(st, Join(lines)) == AfterLines(st, lines)
    decreases |lines|
  {
    if lines == [] {
    } else {
      var st' := AfterLine(st, lines[0]);
      assert lines[0] in lines;
      LoadsOne(st, lines[0], Join(lines[1..]));
      AfterIdle(st, lines[0]);
      if st'.status == Going {
        LoadsLines(st', lines[1..]);
      }
    }
  }

  lemma LoadsOne(st: Loader, line: string, rest: string)
    requires Idle(st) && Whole(line)
    ensures LoadFrom(st, line + "\n" + rest) == LoadFrom(AfterLine(st, line), rest)
    ensures AfterLine(st, line).status != Going ==> LoadFrom(AfterLine(st, line), rest) == AfterLine(st, line)
  {
    NextLine(LoadLine, st, line, rest);
    WholeLine(st, line);
  }

  lemma AfterIdle(st: Loader, line: string)
    requires Idle(st)
    ensures AfterLine(st, line).pending == ""
  {
  }

  predicate IsError(line: string) {
    line != "" && ParseLine(TrimRight(line), "").Error?
  }

  /** A section or an entry. */
  predicate IsSet(line: string) {
    line != "" && (ParseLine(TrimRight(line), "").Section? || ParseLine(TrimRight(line), "").Entry?)
  }

  /** An error line with no section or entry after it. */
  predicate EndsInError(lines: seq<string>) {
    exists i :: 0 <= i < |lines| && IsError(lines[i]) && forall j :: i < j < |lines| ==> !IsSet(lines[j])
  }

  lemma SameKind(line: string, s: string, t: string)
    ensures ParseLine(line, s).Error? <==> ParseLine(line, t).Error?
    ensures ParseLine(line, s).Section? <==> ParseLine(line, t).Section?
    ensures ParseLine(line, s).Entry? <==> ParseLine(line, t).Entry?
  {
    ParseLineReads(line, s);
    ParseLineReads(line, t);
  }

  lemma LineCounts(st: Loader, line: string)
    requires Idle(st)
    ensures var st' := AfterLine(st, line);
      st'.status == Going ==>
        Idle(st') && st'.errs == if IsError(line) then st.errs + 1 else if IsSet(line) then 0 else st.errs
  {
    SameKind(TrimRight(line), st.section, "");
  }

  lemma EndsInErrorFirst(lines: seq<string>)
    requires lines != []
    ensures EndsInError(lines) <==>
      EndsInError(lines[1..]) || (IsError(lines[0]) && forall j :: 1 <= j < |lines| ==> !IsSet(lines[j]))
  {
    if EndsInError(lines) {
      var i :| 0 <= i < |lines| && IsError(lines[i]) && forall j :: i < j < |lines| ==> !IsSet(lines[j]);
      if i > 0 {
        assert lines[1..][i - 1] == lines[i];
      }
    }
    if EndsInError(lines[1..]) {
      var i :|
        0 <= i < |lines| - 1 && IsError(lines[1..][i]) && forall j :: i < j < |lines| - 1 ==> !IsSet(lines[1..][j]);
      assert lines[i + 1] == lines[1..][i];
      assert forall j :: i + 1 < j < |lines| ==> lines[j] == lines[1..][j - 1];
    }
  }

  lemma {:induction false} LinesCount(st: Loader, lines: seq<string>)
    requires Idle(st) && st.errs >= 0 && AfterLines(st, lines).status == Going
    ensures AfterLines(st, lines).errs >= 0
    ensures AfterLines(st, lines).errs > 0 <==>
      EndsInError(lines) || (st.errs > 0 && forall j :: 0 <= j < |lines| ==> !IsSet(lines[j]))
    decreases |lines|
  {
    if lines == [] {
    } else {
      LineCounts(st, lines[0]);
      EndsInErrorFirst(lines);
      assert forall j :: 1 <= j < |lines| ==> lines[j] == lines[1..][j - 1];
      LinesCount(AfterLine(st, lines[0]), lines[1..]);
    }
  }

  /** A file of whole lines is rejected for syntax exactly if no section or entry follows its last error:
      storing one sets the count of errors back. */
  lemma ErrorsExact(lines: seq<string>)
    requires (forall l :: l in lines ==> Whole(l)) && Load(Join(lines)) != Overflown
    ensures Load(Join(lines)).Null? <==> EndsInError(lines)
  {
    LoadsLines(START, lines);
    NeverTooLong(START, lines);
    LinesCount(START, lines);
  }

  lemma {:induction false} NeverTooLong(st: Loader, lines: seq<string>)
    requires st.status != TooLong
    ensures AfterLines(st, lines).status != TooLong
    decreases |lines|
  {
    if lines == [] || st.status != Going {
    } else {
      NeverTooLong(AfterLine(st, lines[0]), lines[1..]);
    }
  }

  /** Such a file: an error in its first line, and still a dictionary. */
  lemma ErrorAccepted()
    ensures Load("bad\nok = 1\n") == Returned(map[":ok" := Some("1")])
  {
    var st := START.(errs := 1);
    assert "bad\nok = 1\n" == "bad" + "\n" + "ok = 1\n" && "ok = 1\n" == "ok = 1" + "\n" + "";
    BadLine();
    OkLine();
    LoadsOne(START, "bad", "ok = 1\n");
    LoadsOne(st, "ok = 1", "");
  }

  lemma BadLine()
    ensures Whole("bad") && AfterLine(START, "bad") == START.(errs := 1)
  {
    assert Strip("bad") == "bad" && TrimRight("bad") == "bad";
    ErrorExact("bad", "");
  }

  lemma OkLine()
    ensures Whole("ok = 1")
    ensures AfterLine(START.(errs := 1), "ok = 1") == START.(table := map[":ok" := Some("1")])
  {
    OkParses();
    StoresOk(START.(errs := 1), TrimRight("ok = 1"));
  }

  lemma OkParses()
    ensures TrimRight("ok = 1") == "ok = 1" && ParseLine("ok = 1", "") == Entry("ok", "1")
  {
    assert "ok" + " " + "=" + " " + "1" == "ok = 1";
    assert LowerCase("ok") == "ok";
    PlainValueLine("ok", " ", " ", "1", "");
  }

  lemma StoresOk(st: Loader, line: string)
    requires st == START.(errs := 1) && ParseLine(line, "") == Entry("ok", "1")
    ensures StoreLine(st, line) == START.(table := map[":ok" := Some("1")])
  {
    assert "" + ":" + "ok" == ":ok";
  }

  // ----- the dump of a dictionary without sections -----

  /** What of it a printed line can carry. */
  predicate SafeFlat(k: string, v: Value) {
    SafeKey(k) && (v.Some? ==> SafeValue(v.value)) && |FlatLine(k, v)| <= ASCIILINESZ - 1
  }

  function Shown(v: Value): string {
    if v.Some? then v.value else "(null)"
  }

  lemma StoresTrimmed(st: Loader, line: string, k: string, v: string)
    requires Fresh(st) && line != "" && TrimRight(line) != "" && TrimRight(line)[|TrimRight(line)| - 1] != '\\'
    requires ParseLine(TrimRight(line), st.section) == Entry(k, v)
    ensures LoadLine(st, line + "\n") == Assigned(st, k, v)
  {
    LineStored(StoreLine, st, line);
    StoresEntry(st, TrimRight(line), k, v);
  }

  lemma FlatAssigned(st: Loader, k: string, v: Value)
    requires st.section == "" && SafeFlat(k, v)
    ensures Assigned(st, k, Shown(v)) == st.(table := st.table[":" + k := Some(Shown(v))])
  {
    assert "" + ":" + k == ":" + k;
  }

  lemma FlatStores(st: Loader, k: string, v: Value, line: string)
    requires Fresh(st) && st.section == "" && SafeFlat(k, v) && line == k + " = " + Shown(v)
    ensures LoadLine(st, line + "\n") == st.(table := st.table[":" + k := Some(Shown(v))])
  {
    FlatParses(k, Shown(v), line);
    StoresTrimmed(st, line, k, Shown(v));
    FlatAssigned(st, k, v);
  }

  /** A flat line comes back under a key with a colon in front. */
  lemma FlatReads(st: Loader, k: string, v: Value, rest: string)
    requires Fresh(st) && st.section == "" && SafeFlat(k, v)
    ensures LoadFrom(st, FlatLine(k, v) + rest) == LoadFrom(st.(table := st.table[":" + k := Some(Shown(v))]), rest)
  {
    var line := k + " = " + Shown(v);
    FlatNoNewline(k, Shown(v));
    NextLine(LoadLine, st, line, rest);
    FlatStores(st, k, v, line);
    assert FlatLine(k, v) + rest == line + "\n" + rest;
  }

  lemma FlatNoNewline(k: string, v: string)
    requires SafeKey(k) && SafeValue(v)
    ensures '\n' !in k + " = " + v
  {
  }

  lemma FlatParses(k: string, v: string, line: string)
    requires SafeKey(k) && SafeValue(v) && line == k + " = " + v
    ensures line != "" && TrimRight(line) != "" && TrimRight(line)[|TrimRight(line)| - 1] != '\\'
    ensures ParseLine(TrimRight(line), "") == Entry(k, v)
  {
    if v == "" {
      TrimRightSpaces(k + " =", " ");
      assert line == k + " =" + " ";
      assert k + " " + "=" == k + " =";
      NoValueLine(k, " ", "");
    } else {
      FlatEnds(k, v, line);
      FlatText(k, v);
      PlainValueLine(k, " ", " ", v, "");
    }
  }

  lemma FlatEnds(k: string, v: string, line: string)
    requires SafeValue(v) && v != "" && line == k + " = " + v
    ensures TrimRight(line) == line && line[|line| - 1] != '\\'
  {
  }

  lemma FlatText(k: string, v: string)
    ensures k + " " + "=" + " " + v == k + " = " + v
  {
  }

  function WithFlat(m: Table, keys: Slots, vals: seq<Value>, j: nat): Table
    requires j <= |keys| == |vals|
    decreases |keys| - j
  {
    if j == |keys| then m
    else WithFlat(if keys[j].Some? then m[":" + keys[j].value := Some(Shown(vals[j]))] else m, keys, vals, j + 1)
  }

  lemma {:induction false} FlatLoads(st: Loader, keys: Slots, vals: seq<Value>, j: nat)
    requires Fresh(st) && st.section == "" && j <= |keys| == |vals|
    requires forall i :: 0 <= i < |keys| && keys[i].Some? ==> SafeFlat(keys[i].value, vals[i])
    ensures LoadFrom(st, DumpFlat(keys, vals, j)) == st.(table := WithFlat(st.table, keys, vals, j))
    decreases |keys| - j
  {
    if j == |keys| {
    } else if keys[j].Some? {
      FlatReads(st, keys[j].value, vals[j], DumpFlat(keys, vals, j + 1));
      FlatLoads(st.(table := st.table[":" + keys[j].value := Some(Shown(vals[j]))]), keys, vals, j + 1);
    } else {
      assert "" + DumpFlat(keys, vals, j + 1) == DumpFlat(keys, vals, j + 1);
      FlatLoads(st, keys, vals, j + 1);
    }
  }

  lemma {:induction false} WithFlatKeeps(m: Table, keys: Slots, vals: seq<Value>, j: nat, q: string)
    requires j <= |keys| == |vals| && q in m
    requires forall i :: j <= i < |keys| && keys[i].Some? ==> ":" + keys[i].value != q
    ensures var r := WithFlat(m, keys, vals, j); q in r && r[q] == m[q]
    decreases |keys| - j
  {
    if j == |keys| {
    } else {
      WithFlatKeeps(if keys[j].Some? then m[":" + keys[j].value := Some(Shown(vals[j]))] else m, keys, vals, j + 1, q);
    }
  }

  lemma {:induction false} WithFlatHas(m: Table, keys: Slots, vals: seq<Value>, j: nat, i: nat)
    requires j <= i < |keys| == |vals| && keys[i].Some?
    requires forall a :: i < a < |keys| && keys[a].Some? ==> keys[a] != keys[i]
    ensures var r, q := WithFlat(m, keys, vals, j), ":" + keys[i].value;
      q in r && r[q] == Some(Shown(vals[i]))
    decreases |keys| - j
  {
    var m' := if keys[j].Some? then m[":" + keys[j].value := Some(Shown(vals[j]))] else m;
    if i == j {
      forall a | j < a < |keys| && keys[a].Some?
        ensures ":" + keys[a].value != ":" + keys[i].value
      {
        assert (":" + keys[a].value)[1..] == keys[a].value && (":" + keys[i].value)[1..] == keys[i].value;
      }
      WithFlatKeeps(m', keys, vals, j + 1, ":" + keys[i].value);
    } else {
      WithFlatHas(m', keys, vals, j + 1, i);
    }
  }

  lemma {:induction false} WithFlatOnly(m: Table, keys: Slots, vals: seq<Value>, j: nat, q: string)
    requires j <= |keys| == |vals| && q in WithFlat(m, keys, vals, j)
    ensures q in m || exists i :: j <= i < |keys| && keys[i].Some? && q == ":" + keys[i].value
    decreases |keys| - j
  {
    if j == |keys| {
    } else {
      WithFlatOnly(if keys[j].Some? then m[":" + keys[j].value := Some(Shown(vals[j]))] else m, keys, vals, j + 1, q);
    }
  }

  /** Every key has gained a colon, and a missing value has become a text. */
  predicate ColonCopy(all: Table, copy: Table) {
    (forall k :: k in all ==> ":" + k in copy && copy[":" + k] == Some(Shown(all[k]))) &&
    (forall q :: q in copy ==> q != "" && q[0] == ':' && q[1..] in all)
  }

  lemma FlatIsCopy(keys: Slots, vals: seq<Value>, hashes: seq<bv32>, all: Table)
    requires Represents(keys, vals, hashes, all)
    ensures ColonCopy(all, WithFlat(map[], keys, vals, 0))
  {
    var r := WithFlat(map[], keys, vals, 0);
    forall k | k in all
      ensures ":" + k in r && r[":" + k] == Some(Shown(all[k]))
    {
      var i :| 0 <= i < |keys| && keys[i] == Some(k);
      WithFlatHas(map[], keys, vals, 0, i);
    }
    forall q | q in r
      ensures q != "" && q[0] == ':' && q[1..] in all
    {
      WithFlatOnly(map[], keys, vals, 0, q);
      var i :| 0 <= i < |keys| && keys[i].Some? && q == ":" + keys[i].value;
      assert q[1..] == keys[i].value;
    }
  }

  lemma FlatDumpLoads(keys: Slots, vals: seq<Value>)
    requires |keys| == |vals| && Sections(keys, 0) == []
    requires forall i :: 0 <= i < |keys| && keys[i].Some? ==> SafeFlat(keys[i].value, vals[i])
    ensures Load(Dump(keys, vals)) == Returned(WithFlat(map[], keys, vals, 0))
  {
    FlatLoads(START, keys, vals, 0);
  }

  /** The dump of a dictionary without sections does not load back as it was, but as this copy. */
  lemma FlatDumpExact(keys: Slots, vals: seq<Value>, hashes: seq<bv32>, all: Table)
    requires Represents(keys, vals, hashes, all) && Sections(keys, 0) == []
    requires forall i :: 0 <= i < |keys| && keys[i].Some? ==> SafeFlat(keys[i].value, vals[i])
    ensures Load(Dump(keys, vals)).Returned? && ColonCopy(all, Load(Dump(keys, vals)).table)
  {
    FlatDumpLoads(keys, vals);
    FlatIsCopy(keys, vals, hashes, all);
  }

  // ----- the format itself -----

  /** A section with one entry, as it is printed. */
  lemma DumpFormat()
    ensures Dump([Some("a"), Some("a:k")], [None, Some("v")]) ==
      "\n[a]\n" + "k                              = v\n" + "\n" + "\n"
  {
    var keys: Slots, vals: seq<Value> := [Some("a"), Some("a:k")], [None, Some("v")];
    OneSection(keys);
    LastSection(keys, vals, "a");
    OneSectionText(keys, vals);
  }

  lemma LastSection(keys: Slots, vals: seq<Value>, sec: string)
    requires |keys| == |vals|
    ensures DumpSections(keys, vals, [sec]) == DumpSection(keys, vals, sec) + "\n"
  {
    assert [sec][1..] == [];
  }

  lemma OneSectionText(keys: Slots, vals: seq<Value>)
    requires keys == [Some("a"), Some("a:k")] && vals == [None, Some("v")]
    ensures DumpSection(keys, vals, "a") == "\n[a]\n" + "k                              = v\n" + "\n"
  {
    OneEntryText(keys, vals);
    assert LowerCase("a") == "a" && keys[0] == Some("a");
    assert Header("a") == "[a]\n";
  }

  lemma OneSection(keys: Slots)
    requires keys == [Some("a"), Some("a:k")]
    ensures Sections(keys, 0) == ["a"]
  {
    assert Sections(keys, 2) == [] && Sections(keys, 1) == [];
  }

  lemma OneEntryText(keys: Slots, vals: seq<Value>)
    requires keys == [Some("a"), Some("a:k")] && vals == [None, Some("v")]
    ensures DumpKeys(keys, vals, "a", 0) == "k                              = v\n"
  {
    assert "a" + ":" == "a:" && "a:k"[..2] == "a:" && "a:k"[2..] == "k";
    PadOne();
    assert DumpKeys(keys, vals, "a", 2) == "";
    assert DumpKeys(keys, vals, "a", 1) == Setting("k", "v") + "";
    assert DumpKeys(keys, vals, "a", 0) == "" + DumpKeys(keys, vals, "a", 1);
  }

  lemma PadOne()
    ensures Pad("k") == "k                             "
  {
    var p := Pad("k");
    assert forall i :: 1 <= i < 30 ==> p[i] == ' ';
    assert |"k                             "| == 30;
    assert forall i :: 1 <= i < 30 ==> "k                             "[i] == ' ';
  }

  /** A section is looked up in lower case and printed as it is called. */
  lemma SectionPrints(keys: Slots, vals: seq<Value>, sec: string)
    requires |keys| == |vals|
    ensures Some(LowerCase(sec)) !in keys ==> DumpSection(keys, vals, sec) == ""
    ensures Some(LowerCase(sec)) in keys ==> "\n[" + sec + "]\n" <= DumpSection(keys, vals, sec)
  {
    HeaderFirst(sec, DumpKeys(keys, vals, sec, 0) + "\n");
  }

  lemma HeaderFirst(sec: string, body: string)
    ensures "\n[" + sec + "]\n" <= "\n" + (Header(sec) + body)
  {
    assert "\n" + (Header(sec) + body) == "\n[" + sec + "]\n" + body;
  }

  /** An entry without value prints as an empty one. */
  lemma {:induction false} NullPrintsEmpty(keys: Slots, vals: seq<Value>, sec: string, i: nat, j: nat)
    requires j <= |keys| == |vals| && i < |keys|
    ensures DumpKeys(keys, vals[i := None], sec, j) == DumpKeys(keys, vals[i := Some("")], sec, j)
    decreases |keys| - j
  {
    if j == |keys| {
    } else {
      NullPrintsEmpty(keys, vals, sec, i, j + 1);
    }
  }
}
