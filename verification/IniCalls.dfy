/** The INI functions on a dictionary in place: scans over the slots that append text, and the loading
    loop that fills a new dictionary.  */
module IniCalls {
  import opened IniText
  import opened Dictionary
  import opened IniFile

  /** `strstrip`: two scans towards the middle, on what fits its static buffer. */
  method Strstrip(s: string) returns (t: string)
    requires |TrimLeft(s)| <= ASCIILINESZ
    ensures t == Strip(s)
  {
    var a := s;
    while a != "" && IsSpace(a[0])
      invariant TrimLeft(a) == TrimLeft(s)
      decreases |a|
    {
      a := a[1..];
    }
    var last := |a|;
    assert a[..last] == a;
    while last > 0 && IsSpace(a[last - 1])
      invariant 0 <= last <= |a| && TrimRight(a[..last]) == TrimRight(a)
    {
      assert a[..last][..last - 1] == a[..last - 1];
      last := last - 1;
    }
    t := a[..last];
  }

  /** `strlwc`: at most the size of its static buffer. */
  method Strlwc(s: string) returns (l: string)
    ensures l == LowerCase(s)
  {
    l := "";
    while |l| < |s| && |l| < ASCIILINESZ
      invariant |l| <= |s| && |l| <= ASCIILINESZ
      invariant forall i :: 0 <= i < |l| ==> l[i] == ToLower(s[i])
    {
      l := l + [ToLower(s[|l|])];
    }
  }

  /** `iniparser_getnsec`, on the key slots. */
  method GetNSec(keys: Slots) returns (nsec: nat)
    ensures nsec == |Sections(keys, 0)|
  {
    nsec := 0;
    for i := 0 to |keys|
      invariant nsec + |Sections(keys, i)| == |Sections(keys, 0)|
    {
      if IsSection(keys[i]) {
        nsec := nsec + 1;
      }
    }
  }

  /** `iniparser_getsecname`, on the key slots: NULL outside the range. */
  method GetSecName(keys: Slots, n: int) returns (name: Option<string>)
    ensures name == var secs := Sections(keys, 0); if 0 <= n < |secs| then Some(secs[n]) else None
  {
    if n < 0 {
      return None;
    }
    ghost var secs := Sections(keys, 0);
    var found := 0;
    for i := 0 to |keys|
      invariant 0 <= found <= n && found <= |secs|
      invariant secs[found..] == Sections(keys, i)
    {
      if IsSection(keys[i]) {
        assert secs[found] == secs[found..][0] == keys[i].value;
        assert secs[found + 1..] == secs[found..][1..] == Sections(keys, i + 1);
        found := found + 1;
        if found > n {
          return keys[i];
        }
      }
    }
    return None;
  }

  lemma NextEntry(out: string, keys: Slots, vals: seq<Value>, sec: string, j: nat)
    requires j < |keys| == |vals|
    ensures out + DumpKeys(keys, vals, sec, j) ==
      (if InSection(keys[j], sec) then out + Setting(keys[j].value[|sec| + 1..], Text(vals[j])) else out) +
      DumpKeys(keys, vals, sec, j + 1)
  {
    var tail := DumpKeys(keys, vals, sec, j + 1);
    if InSection(keys[j], sec) {
      var line := Setting(keys[j].value[|sec| + 1..], Text(vals[j]));
      assert out + (line + tail) == out + line + tail;
    } else {
      assert "" + tail == tail;
    }
  }

  /** The loop of `iniparser_dumpsection_ini`. */
  method DumpEntries(keys: Slots, vals: seq<Value>, sec: string) returns (out: string)
    requires |keys| == |vals|
    ensures out == DumpKeys(keys, vals, sec, 0)
  {
    out := "";
    for j := 0 to |keys|
      invariant out + DumpKeys(keys, vals, sec, j) == DumpKeys(keys, vals, sec, 0)
    {
      NextEntry(out, keys, vals, sec, j);
      if InSection(keys[j], sec) {
        out := out + Setting(keys[j].value[|sec| + 1..], Text(vals[j]));
      }
    }
    assert out == out + "";
  }

  /** `iniparser_dumpsection_ini`; false if the section's name overflows its buffer. */
  method DumpSectionIni(d: Dict, sec: string) returns (ok: bool, out: string)
    requires d.Valid()
    ensures ok == FitsKeym(d.key[..], sec)
    ensures ok ==> out == DumpSection(d.key[..], d.val[..], sec)
  {
    var lower := Strlwc(sec);
    var at := d.Find(lower);
    if at == d.size {
      return true, "";
    }
    assert d.key[..][at] == Some(lower);
    if |sec| + 1 > ASCIILINESZ {
      return false, "";
    }
    var body := DumpEntries(d.key[..], d.val[..], sec);
    return true, "\n" + (Header(sec) + (body + "\n"));
  }

  /** `iniparser_dump_ini`; false if it overflows a buffer.  What it writes for an expressible dictionary
      loads back as the same dictionary, unless a key is longer than the loader's buffer. */
  method DumpIni(d: Dict) returns (ok: bool, out: string)
    requires d.Valid()
    ensures ok <==> AllFitKeym(d.key[..], Sections(d.key[..], 0))
    ensures ok ==> out == Dump(d.key[..], d.val[..])
    ensures Expressible(d.key[..], d.val[..]) ==>
      ok && Load(out) == if forall k :: k in d.m ==> |k| <= ASCIILINESZ then Returned(d.m) else Overflown
  {
    var nsec := GetNSec(d.key[..]);
    if nsec < 1 {
      out := DumpFlatIni(d.key[..], d.val[..]);
      ok := true;
    } else {
      ok, out := DumpAllSections(d, nsec);
    }
    if Expressible(d.key[..], d.val[..]) {
      DumpLoadRoundTrip(d.key[..], d.val[..], d.hash[..], d.m);
      SectionsPrint(d.key[..], d.val[..], d.hash[..], d.m);
    }
  }

  lemma SectionsPrint(keys: Slots, vals: seq<Value>, hashes: seq<bv32>, m: Table)
    requires Represents(keys, vals, hashes, m) && Expressible(keys, vals)
    ensures AllFitKeym(keys, Sections(keys, 0))
  {
    forall s | s in Sections(keys, 0)
      ensures FitsKeym(keys, s)
    {
      SectionsSafe(keys, vals, hashes, m, s);
    }
  }

  method DumpAllSections(d: Dict, nsec: nat) returns (ok: bool, out: string)
    requires d.Valid() && nsec == |Sections(d.key[..], 0)|
    ensures ok <==> AllFitKeym(d.key[..], Sections(d.key[..], 0))
    ensures ok ==> out == DumpSections(d.key[..], d.val[..], Sections(d.key[..], 0))
  {
    ghost var keys, vals, secs := d.key[..], d.val[..], Sections(d.key[..], 0);
    ok, out := true, "";
    assert secs[0..] == secs;
    for i := 0 to nsec
      invariant ok && AllFitKeym(keys, secs[..i])
      invariant out + DumpSections(keys, vals, secs[i..]) == DumpSections(keys, vals, secs)
    {
      var part;
      var name := GetSecName(d.key[..], i);
      ok, part := DumpSectionIni(d, name.value);
      NextFits(keys, secs, i);
      if !ok {
        return;
      }
      SectionOut(out, keys, vals, secs, i);
      out := out + part;
    }
    out := out + "\n";
    assert secs[..nsec] == secs;
  }

  lemma NextFits(keys: Slots, secs: seq<string>, i: nat)
    requires i < |secs|
    ensures AllFitKeym(keys, secs[..i + 1]) <==> AllFitKeym(keys, secs[..i]) && FitsKeym(keys, secs[i])
    ensures AllFitKeym(keys, secs) ==> FitsKeym(keys, secs[i])
  {
    assert secs[..i + 1] == secs[..i] + [secs[i]];
  }

  lemma SectionOut(out: string, keys: Slots, vals: seq<Value>, secs: seq<string>, i: nat)
    requires |keys| == |vals| && i < |secs|
    ensures out + DumpSections(keys, vals, secs[i..]) ==
      out + DumpSection(keys, vals, secs[i]) + DumpSections(keys, vals, secs[i + 1..])
  {
    assert secs[i..][1..] == secs[i + 1..];
  }

  lemma NextFlat(out: string, keys: Slots, vals: seq<Value>, j: nat)
    requires j < |keys| == |vals|
    ensures out + DumpFlat(keys, vals, j) ==
      (if keys[j].Some? then out + FlatLine(keys[j].value, vals[j]) else out) + DumpFlat(keys, vals, j + 1)
  {
    var tail := DumpFlat(keys, vals, j + 1);
    if keys[j].Some? {
      assert out + (FlatLine(keys[j].value, vals[j]) + tail) == out + FlatLine(keys[j].value, vals[j]) + tail;
    } else {
      assert "" + tail == tail;
    }
  }

  method DumpFlatIni(keys: Slots, vals: seq<Value>) returns (out: string)
    requires |keys| == |vals|
    ensures out == DumpFlat(keys, vals, 0)
  {
    out := "";
    for j := 0 to |keys|
      invariant out + DumpFlat(keys, vals, j) == DumpFlat(keys, vals, 0)
    {
      NextFlat(out, keys, vals, j);
      if keys[j].Some? {
        out := out + FlatLine(keys[j].value, vals[j]);
      }
    }
    assert out == out + "";
  }

  /** The switch on a line's status, filling the dictionary. */
  method StoreInto(d: Dict, section: string, errs: int, line: string, ghost st: Loader)
    returns (section': string, errs': int, status: Status)
    requires d.Valid() && st.section == section && st.errs == errs && st.table == d.m && st.status == Going
    modifies d, d.key, d.val, d.hash
    ensures d.Valid() && Loader(section', d.m, "", errs', status) == StoreLine(st, line)
    ensures (d.key == old(d.key) || fresh(d.key)) && (d.val == old(d.val) || fresh(d.val))
    ensures d.hash == old(d.hash) || fresh(d.hash)
  {
    section', errs', status := section, errs, Going;
    match ParseLine(line, section)
    case Section(name) =>
      section' := name;
      errs' := d.Set(Some(name), None);
    case Entry(key, value) =>
      if |section| + 1 + |key| > ASCIILINESZ {
        status := Overflow;
      } else {
        errs' := d.Set(Some(section + ":" + key), Some(value));
      }
    case Error => errs' := errs + 1;
    case _ =>
  }

  /** One turn of the loop: the end of the line, continuation, then the switch. */
  method LoadLineInto(d: Dict, section: string, pending: string, errs: int, chunk: string, ghost st: Loader)
    returns (section': string, pending': string, errs': int, status: Status)
    requires d.Valid() && st == Loader(section, d.m, pending, errs, Going)
    modifies d, d.key, d.val, d.hash
    ensures d.Valid() && Loader(section', d.m, pending', errs', status) == LoadLine(st, chunk)
    ensures (d.key == old(d.key) || fresh(d.key)) && (d.val == old(d.val) || fresh(d.val))
    ensures d.hash == old(d.hash) || fresh(d.hash)
  {
    var line := pending + chunk;
    section', pending', errs', status := section, pending, errs, Going;
    if |line| <= 1 {
      return;
    }
    if line[|line| - 1] != '\n' {
      status := TooLong;
      return;
    }
    var t := TrimRight(line);
    if t != "" && t[|t| - 1] == '\\' {
      pending' := t[..|t| - 1];
      return;
    }
    section', errs', status := StoreInto(d, section, errs, t, st);
    pending' := "";
  }

  /** `iniparser_load` on the text of a file: the dictionary it returns stands for `Load(text)`, NULL
      and the overflow of its buffer included. */
  method IniLoad(text: string) returns (r: Option<Dict>, overflown: bool)
    ensures overflown <==> Load(text) == Overflown
    ensures !overflown ==> (r.Some? <==> Load(text).Returned?)
    ensures r.Some? ==> !overflown && fresh(r.value) && r.value.Valid() && Load(text) == Returned(r.value.m)
  {
    var d := new Dict(0);
    var section, pending, errs, status, rest := "", "", 0, Going, text;
    while status == Going && rest != "" && ASCIILINESZ - 1 - |pending| > 0
      invariant d.Valid() && fresh(d) && fresh(d.key) && fresh(d.val) && fresh(d.hash)
      invariant LoadFrom(Loader(section, d.m, pending, errs, status), rest) == LoadFrom(START, text)
      decreases |rest|
    {
      ghost var st := Loader(section, d.m, pending, errs, status);
      var k := LineLength(rest, ASCIILINESZ - 1 - |pending|);
      LoadTurn(st, rest, k);
      section, pending, errs, status := LoadLineInto(d, section, pending, errs, rest[..k], st);
      rest := rest[k..];
    }
    overflown := status == Overflow;
    r := if status == Going && errs == 0 then Some(d) else None;
  }

  /** One turn of the loop, by the kind of its line. */
  lemma LoadTurn(st: Loader, text: string, k: nat)
    requires st.status == Going && text != "" && ASCIILINESZ - 1 - |st.pending| > 0
    requires k == LineLength(text, ASCIILINESZ - 1 - |st.pending|)
    ensures LoadFrom(st, text) == LoadFrom(LoadLine(st, text[..k]), text[k..])
  {
    LoopTurn(LoadLine, st, text, k);
  }

  lemma LoopTurn(body: (Loader, string) -> Loader, st: Loader, text: string, k: nat)
    requires st.status == Going && text != "" && ASCIILINESZ - 1 - |st.pending| > 0
    requires k == LineLength(text, ASCIILINESZ - 1 - |st.pending|)
    ensures LoadLoop(body, st, text) == LoadLoop(body, body(st, text[..k]), text[k..])
  {
  }
}
