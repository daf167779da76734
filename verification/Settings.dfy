/** The settings store: a table in memory, printed to a file after every change and parsed from it at start. */
module Settings {
  import opened Prelude

  datatype Setting = Setting(id: string, key: string, value: string)

  /** What reading the file gives: a table, a file that is thrown away, or an entry without a token. */
  datatype Loaded = Table(entries: seq<Setting>) | Discarded | Crash

  const MAX_ENTRIES: nat := 512
  const BUFFER: nat := 256
  /** The longest piece of a line read at once. */
  const CHUNK: nat := 1022

  // ------------------------------------------------------------------
  // Printing
  // ------------------------------------------------------------------

  function PrintEntry(e: Setting): string {
    e.id + "=" + e.key + "=" + e.value + "\n"
  }

  function Print(t: seq<Setting>): string {
    if t == [] then "" else PrintEntry(t[0]) + Print(t[1..])
  }

  lemma {:induction false} PrintMore(t: seq<Setting>, e: Setting)
    ensures Print(t + [e]) == Print(t) + PrintEntry(e)
  {
    if t == [] {
      assert t + [e] == [e];
      assert Print([e]) == PrintEntry(e) + Print([]);
    } else {
      PrintMore(t[1..], e);
      assert (t + [e])[1..] == t[1..] + [e];
      assert PrintEntry(t[0]) + (Print(t[1..]) + PrintEntry(e)) == (PrintEntry(t[0]) + Print(t[1..])) + PrintEntry(e);
    }
  }

  // ------------------------------------------------------------------
  // Parsing
  // ------------------------------------------------------------------

  /** Where the next read stops: after a newline, at the end, or when the buffer is full. */
  function ReadEnd(s: string, n: nat): (e: nat)
    requires n < |s| && n < CHUNK
    ensures n < e <= |s| && e <= CHUNK
    ensures forall k :: n <= k < e - 1 ==> s[k] != '\n'
    ensures s[e - 1] == '\n' || e == |s| || e == CHUNK
    decreases |s| - n
  {
    if s[n] == '\n' || n + 1 == |s| || n + 1 == CHUNK then n + 1 else ReadEnd(s, n + 1)
  }

  function CountEquals(s: string): nat {
    if s == "" then 0 else CountEquals(s[..|s| - 1]) + (if s[|s| - 1] == '=' then 1 else 0)
  }

  /** Every line that is long enough to count has two equals signs. */
  predicate Verified(s: string)
    decreases |s|
  {
    s == "" ||
    var e := ReadEnd(s, 0);
    (e > 2 ==> CountEquals(s[..e]) >= 2) && Verified(s[e..])
  }

  function SkipEquals(s: string, i: nat): (j: nat)
    requires i <= |s|
    ensures i <= j <= |s| && (forall k :: i <= k < j ==> s[k] == '=') && (j < |s| ==> s[j] != '=')
    decreases |s| - i
  {
    if i < |s| && s[i] == '=' then SkipEquals(s, i + 1) else i
  }

  function NextEquals(s: string, i: nat): (j: nat)
    requires i <= |s|
    ensures i <= j <= |s| && (forall k :: i <= k < j ==> s[k] != '=') && (j < |s| ==> s[j] == '=')
    decreases |s| - i
  {
    if i < |s| && s[i] != '=' then NextEquals(s, i + 1) else i
  }

  /** Splits a line, without its last character, at equals signs; a token may be missing. */
  function ParseEntry(s: string): Option<Setting> {
    var a := SkipEquals(s, 0);
    var b := NextEquals(s, a);
    if a == |s| || b == |s| then None
    else
      var c := SkipEquals(s, b + 1);
      var d := NextEquals(s, c);
      if c == |s| then None
      else Some(Setting(s[a..b], s[c..d], if d < |s| then s[d + 1..] else ""))
  }

  function ParseAll(s: string): (l: Loaded)
    ensures !l.Discarded?
    decreases |s|
  {
    if s == "" then Table([])
    else
      var e := ReadEnd(s, 0);
      if e <= 2 then ParseAll(s[e..])
      else match ParseEntry(s[..e - 1])
        case None => Crash
        case Some(entry) => Prepend([entry], ParseAll(s[e..]))
  }

  function Prepend(t: seq<Setting>, l: Loaded): Loaded {
    if l.Table? then Table(t + l.entries) else l
  }

  /** Reading a file that may be missing. */
  function Load(file: Option<string>): Loaded {
    match file
    case None => Table([])
    case Some(s) => if Verified(s) then ParseAll(s) else Discarded
  }

  // ------------------------------------------------------------------
  // The round trip
  // ------------------------------------------------------------------

  predicate Short(e: Setting) {
    |e.id| < BUFFER && |e.key| < BUFFER && |e.value| < BUFFER
  }

  predicate AllShort(t: seq<Setting>) {
    forall k :: 0 <= k < |t| ==> Short(t[k])
  }

  /** An entry whose printed line can be taken apart again. */
  predicate Clean(e: Setting) {
    && e.id != "" && '=' !in e.id && '\n' !in e.id
    && e.key != "" && '=' !in e.key && '\n' !in e.key
    && '\n' !in e.value
  }

  predicate AllClean(t: seq<Setting>) {
    forall k :: 0 <= k < |t| ==> Clean(t[k])
  }

  lemma {:induction false} ReadEndAt(s: string, n: nat, e: nat)
    requires n < e <= |s| && e <= CHUNK && s[e - 1] == '\n' && forall k :: n <= k < e - 1 ==> s[k] != '\n'
    ensures n < CHUNK && ReadEnd(s, n) == e
    decreases e - n
  {
    if n + 1 < e {
      ReadEndAt(s, n + 1, e);
    }
  }

  lemma {:induction false} EqualsAt(s: string, i: nat, j: nat)
    requires i < j < |s| && s[i] == '=' && s[j] == '='
    ensures CountEquals(s) >= 2
  {
    EqualsBefore(s, j);
    EqualsBefore(s[..j], i);
    assert s[..j][..i] == s[..i] && s[..j + 1][..j] == s[..j];
  }

  lemma {:induction false} EqualsBefore(s: string, i: nat)
    requires i < |s| && s[i] == '='
    ensures CountEquals(s) >= CountEquals(s[..i]) + 1
    decreases |s|
  {
    if i < |s| - 1 {
      EqualsBefore(s[..|s| - 1], i);
      assert s[..|s| - 1][..i] == s[..i];
    }
  }

  /** The text of a clean entry is taken apart into the entry. */
  lemma PrintedText(e: Setting)
    requires Clean(e)
    ensures ParseEntry(e.id + "=" + e.key + "=" + e.value) == Some(e)
  {
    var text := e.id + "=" + e.key + "=" + e.value;
    var b, d := |e.id|, |e.id| + 1 + |e.key|;
    assert text[..b] == e.id && text[b] == '=' && text[b + 1..d] == e.key && text[d] == '=' && text[d + 1..] == e.value;
    assert SkipEquals(text, 0) == 0;
    NextEqualsAt(text, 0, b);
    assert text[b + 1] == e.key[0];
    assert SkipEquals(text, b + 1) == b + 1;
    NextEqualsAt(text, b + 1, d);
  }

  /** The line printed for a clean entry is read at once and taken apart into the entry. */
  lemma PrintedEntry(e: Setting, rest: string)
    requires Clean(e) && Short(e)
    ensures var line, s := PrintEntry(e), PrintEntry(e) + rest;
      && ReadEnd(s, 0) == |line| > 2 && s[..|line|] == line && s[|line|..] == rest
      && CountEquals(line) >= 2 && ParseEntry(line[..|line| - 1]) == Some(e)
  {
    hide ParseEntry, ReadEnd, CountEquals;
    var line := PrintEntry(e);
    var text := e.id + "=" + e.key + "=" + e.value;
    PrintedText(e);
    assert line[..|line| - 1] == text;
    ReadEndAt(line + rest, 0, |line|);
    EqualsAt(line, |e.id|, |e.id| + 1 + |e.key|);
  }

  lemma NextEqualsAt(s: string, i: nat, j: nat)
    requires i <= j < |s| && s[j] == '=' && forall k :: i <= k < j ==> s[k] != '='
    ensures NextEquals(s, i) == j
  {
  }

  lemma {:induction false} CleanIsRead(t: seq<Setting>)
    requires AllClean(t) && AllShort(t)
    ensures Verified(Print(t)) && ParseAll(Print(t)) == Table(t)
  {
    if t != [] {
      CleanIsRead(t[1..]);
      ReadOne(t[0], Print(t[1..]), t[1..]);
      assert [t[0]] + t[1..] == t;
    }
  }

  lemma ReadOne(e: Setting, rest: string, t: seq<Setting>)
    requires Clean(e) && Short(e) && Verified(rest) && ParseAll(rest) == Table(t)
    ensures Verified(PrintEntry(e) + rest) && ParseAll(PrintEntry(e) + rest) == Table([e] + t)
  {
    hide ReadEnd, ParseEntry, PrintEntry, CountEquals;
    PrintedEntry(e, rest);
    var line, s := PrintEntry(e), PrintEntry(e) + rest;
    assert s[..|line| - 1] == line[..|line| - 1];
    assert Prepend([e], ParseAll(s[|line|..])) == Table([e] + t);
  }

  lemma ParsedIsClean(s: string)
    requires '\n' !in s && ParseEntry(s).Some?
    ensures Clean(ParseEntry(s).value)
  {
  }

  lemma {:induction false} ReadIsClean(s: string)
    requires ParseAll(s).Table?
    ensures AllClean(ParseAll(s).entries)
    decreases |s|
  {
    if s != "" {
      var e := ReadEnd(s, 0);
      ReadIsClean(s[e..]);
      if e > 2 {
        ParsedIsClean(s[..e - 1]);
      }
    }
  }

  /** A table survives printing and loading exactly if all its entries are clean. */
  lemma RoundTrip(t: seq<Setting>)
    requires AllShort(t)
    ensures Load(Some(Print(t))) == Table(t) <==> AllClean(t)
  {
    if AllClean(t) {
      CleanIsRead(t);
    }
    if Load(Some(Print(t))) == Table(t) {
      ReadIsClean(Print(t));
    }
  }

  /** A value with a line break is such an entry that does not survive. */
  lemma LineBreakIsLost()
    ensures var t := [Setting("app", "note", "two\nlines")]; AllShort(t) && Load(Some(Print(t))) != Table(t)
  {
    var t := [Setting("app", "note", "two\nlines")];
    assert t[0].value[3] == '\n' && !Clean(t[0]);
    RoundTrip(t);
  }

  // ------------------------------------------------------------------
  // The table as a map
  // ------------------------------------------------------------------

  predicate Names(e: Setting, id: string, key: string) {
    e.id == id && e.key == key
  }

  /** The value of the first entry for an id and a key. */
  function Lookup(t: seq<Setting>, id: string, key: string): Option<string> {
    if t == [] then None else if Names(t[0], id, key) then Some(t[0].value) else Lookup(t[1..], id, key)
  }

  /** The first entry for an id and a key gets a value, or a new entry does. */
  function Put(t: seq<Setting>, id: string, key: string, value: string): seq<Setting> {
    if t == [] then [Setting(id, key, value)]
    else if Names(t[0], id, key) then [t[0].(value := value)] + t[1..]
    else [t[0]] + Put(t[1..], id, key, value)
  }

  /** What was put is found, and nothing else has changed. */
  lemma {:induction false} PutLookup(t: seq<Setting>, id: string, key: string, value: string, id2: string, key2: string)
    ensures Lookup(Put(t, id, key, value), id2, key2) ==
      if id2 == id && key2 == key then Some(value) else Lookup(t, id2, key2)
  {
    if t != [] {
      var u := Put(t, id, key, value);
      if !Names(t[0], id, key) {
        PutLookup(t[1..], id, key, value, id2, key2);
        assert u[1..] == Put(t[1..], id, key, value);
      } else {
        assert u[1..] == t[1..];
      }
    }
  }

  lemma {:induction false} FoundAt(t: seq<Setting>, x: nat, id: string, key: string, value: string)
    requires x <= |t| && (forall k :: 0 <= k < x ==> !Names(t[k], id, key)) && (x < |t| ==> Names(t[x], id, key))
    ensures Lookup(t, id, key) == if x < |t| then Some(t[x].value) else None
    ensures Put(t, id, key, value) == if x < |t| then t[x := t[x].(value := value)] else t + [Setting(id, key, value)]
  {
    hide Names;
    if x > 0 {
      var rest, e := t[1..], Setting(id, key, value);
      FoundAt(rest, x - 1, id, key, value);
      assert [t[0]] + rest == t;
      if x < |t| {
        assert [t[0]] + rest[x - 1 := rest[x - 1].(value := value)] == t[x := t[x].(value := value)];
      } else {
        assert [t[0]] + (rest + [e]) == t + [e];
      }
    } else if t != [] {
      assert [t[0].(value := value)] + t[1..] == t[0 := t[0].(value := value)];
    }
  }

  // ------------------------------------------------------------------
  // The store
  // ------------------------------------------------------------------

  class Store {
    const table: array<Setting>
    var count: nat
    var file: Option<string>

    predicate Valid()
      reads this
    {
      table.Length == MAX_ENTRIES && count <= MAX_ENTRIES
    }

    function Contents(): seq<Setting>
      requires Valid()
      reads this, table
    {
      table[..count]
    }

    /** The settings as a caller sees them: those in memory or, if there are none, those in the file. */
    function View(): seq<Setting>
      requires Valid()
      reads this, table
    {
      if count > 0 then Contents() else Stored(file)
    }

    /** The entries in memory fit their buffers; if there are none, those in the file can be read. */
    predicate Usable()
      reads this, table
    {
      Valid() && AllShort(Contents()) && (count == 0 ==> Readable(file))
    }

    /** Another process sees the same settings. */
    predicate Saved()
      reads this, table
    {
      Usable() && Readable(file) && Stored(file) == View()
    }

    constructor (file: Option<string>)
      ensures Valid() && count == 0 && this.file == file && fresh(table)
    {
      table := new Setting[MAX_ENTRIES](_ => Setting("", "", ""));
      count, this.file := 0, file;
    }

    /** The process ends and another one starts, which can use the file. */
    method Restart()
      requires Usable() && Readable(file)
      modifies this`count
      ensures Saved() && count == 0 && View() == Stored(file)
      ensures old(count > 0 && file == Some(Print(View()))) ==> (View() == old(View()) <==> AllClean(old(View())))
    {
      hide Print, AllClean, Load;
      ghost var t := View();
      count := 0;
      if t != [] && AllShort(t) && |t| <= MAX_ENTRIES {
        SavedIffClean(t);
      }
    }

    /** Checks the file and throws it away if a line has too few equals signs. */
    method VerifySettings() returns (ok: bool)
      modifies this`file
      ensures ok == (old(file).Some? ==> Verified(old(file).value))
      ensures file == if ok then old(file) else None
    {
      hide Verified, ReadEnd;
      if file.None? {
        return true;
      }
      var s, pos := file.value, 0;
      assert s[0..] == s;
      while pos < |s|
        invariant pos <= |s| && file == old(file) && Verified(s) == Verified(s[pos..])
      {
        var rest := s[pos..];
        var line := rest[..ReadEnd(rest, 0)];
        VerifyStep(rest, line);
        assert rest[|line|..] == s[pos + |line|..];
        if |line| > 2 {
          var equals := 0;
          for x := 0 to |line|
            invariant equals == CountEquals(line[..x])
          {
            assert line[..x + 1][..x] == line[..x];
            if line[x] == '=' {
              equals := equals + 1;
            }
          }
          assert line[..|line|] == line;
          if equals < 2 {
            file := None;
            return false;
          }
        }
        pos := pos + |line|;
      }
      assert s[pos..] == "";
      VerifyNothing();
      return true;
    }

    /** Fills the table from the file. */
    method LoadSettings()
      requires Valid() && Readable(file)
      modifies this, table
      ensures Usable() && Contents() == View() == Stored(old(file))
      ensures file == if Load(old(file)).Discarded? then None else old(file)
    {
      count := 0;
      var ok := VerifySettings();
      if !ok || file.None? {
        return;
      }
      ParseFile(file.value);
    }

    /** Reads the lines of the file into the table. */
    method ParseFile(s: string)
      requires Valid() && count == 0 && ParseAll(s).Table? && |ParseAll(s).entries| <= MAX_ENTRIES
      modifies this`count, table
      ensures Valid() && Contents() == ParseAll(s).entries
    {
      hide ParseAll, ParseEntry, ReadEnd;
      var pos := 0;
      assert s[0..] == s && table[..0] == [];
      while pos < |s|
        invariant pos <= |s| && Valid()
        invariant ParseAll(s) == Prepend(Contents(), ParseAll(s[pos..]))
      {
        ghost var before := Contents();
        var rest := s[pos..];
        var line := rest[..ReadEnd(rest, 0)];
        ParseStep(rest, line);
        assert rest[|line|..] == s[pos + |line|..];
        if |line| > 2 {
          var entry := ParseEntry(line[..|line| - 1]);
          PrependTwice(before, [entry.value], ParseAll(s[pos + |line|..]));
          table[count] := entry.value;
          count := count + 1;
          assert Contents() == before + [entry.value];
        }
        pos := pos + |line|;
      }
      assert s[pos..] == "";
      ParseNothing();
    }

    /** Prints the table into the file. */
    method SaveSettings()
      requires Valid()
      modifies this`file
      ensures file == Some(Print(Contents()))
    {
      var x, out := 0, "";
      while x < count
        invariant x <= count && out == Print(table[..x])
      {
        PrintMore(table[..x], table[x]);
        assert table[..x + 1] == table[..x] + [table[x]];
        var e := table[x];
        out := out + e.id + "=" + e.key + "=" + e.value + "\n";
        x := x + 1;
      }
      file := Some(out);
    }

    /** Finds the first entry for an id and a key. */
    method Find(id: string, key: string) returns (x: nat)
      requires Valid()
      ensures x <= count && (forall k :: 0 <= k < x ==> !Names(Contents()[k], id, key))
      ensures x < count ==> Names(Contents()[x], id, key)
    {
      x := 0;
      while x < count
        invariant x <= count && forall k :: 0 <= k < x ==> !Names(Contents()[k], id, key)
      {
        if table[x].id == id && table[x].key == key {
          return;
        }
        x := x + 1;
      }
    }

    /** The value set for an id and a key; an empty value and false if there is none. */
    method Get(id: string, key: string) returns (ok: bool, value: string)
      requires Usable()
      modifies this, table
      ensures Usable() && View() == old(View()) && (Saved() <==> old(Saved()))
      ensures match Lookup(View(), id, key) case Some(v) => ok && value == v case None => !ok && value == ""
    {
      if count == 0 {
        DiscardedIsEmpty(file);
        LoadSettings();
      }
      assert Contents() == View();
      var x := Find(id, key);
      FoundAt(Contents(), x, id, key, "");
      if x < count {
        return true, table[x].value;
      }
      return false, "";
    }

    /**
     * Sets a value, in memory and in the file. The caller sees it in any case; another process sees the same
     * settings exactly if all entries are clean.
     */
    method Set(id: string, key: string, value: string)
      requires Usable() && Short(Setting(id, key, value))
      requires |View()| < MAX_ENTRIES || Lookup(View(), id, key).Some?
      modifies this, table
      ensures Usable() && count > 0 && View() == Put(old(View()), id, key, value)
      ensures file == Some(Print(View()))
      ensures Saved() <==> AllClean(View())
    {
      hide Load, Print, Put, Lookup, AllClean, AllShort, Short;
      ghost var t := View();
      if count == 0 {
        LoadSettings();
      }
      assert Contents() == t;
      var x := Find(id, key);
      assert Contents() == t;
      FoundAt(t, x, id, key, value);
      PutShort(t, id, key, value);
      if x < count {
        table[x] := table[x].(value := value);
      } else {
        table[count] := Setting(id, key, value);
        count := count + 1;
      }
      assert Contents() == Put(t, id, key, value);
      SaveSettings();
      SavedIffClean(View());
    }
  }

  /** The entries of the file. */
  function Stored(file: Option<string>): seq<Setting> {
    if Load(file).Table? then Load(file).entries else []
  }

  /** The file can be read into the buffers. */
  predicate Readable(file: Option<string>) {
    && !Load(file).Crash?
    && (Load(file).Table? ==> |Load(file).entries| <= MAX_ENTRIES && AllShort(Load(file).entries))
  }

  lemma DiscardedIsEmpty(file: Option<string>)
    ensures Load(file).Discarded? ==> Readable(None) && Stored(file) == Stored(None) == []
  {
  }

  /** A printed table is read back exactly if all its entries are clean. */
  lemma SavedIffClean(t: seq<Setting>)
    requires AllShort(t) && t != [] && |t| <= MAX_ENTRIES
    ensures Readable(Some(Print(t))) && Stored(Some(Print(t))) == t <==> AllClean(t)
  {
    hide Print, AllClean, AllShort, Load;
    RoundTrip(t);
  }

  lemma VerifyNothing()
    ensures Verified("")
  {
  }

  lemma VerifyStep(s: string, line: string)
    requires s != "" && line == s[..ReadEnd(s, 0)]
    ensures Verified(s) <==> (|line| > 2 ==> CountEquals(line) >= 2) && Verified(s[|line|..])
  {
    hide ReadEnd;
  }

  lemma ParseNothing()
    ensures ParseAll("") == Table([])
  {
  }

  /** What the next line adds to the table. */
  lemma ParseStep(s: string, line: string)
    requires s != "" && line == s[..ReadEnd(s, 0)]
    ensures |line| <= 2 ==> ParseAll(s) == ParseAll(s[|line|..])
    ensures |line| > 2 ==> var entry := ParseEntry(line[..|line| - 1]);
      ParseAll(s) == if entry.None? then Crash else Prepend([entry.value], ParseAll(s[|line|..]))
  {
    hide ParseEntry, ReadEnd;
    assert |line| > 2 ==> line[..|line| - 1] == s[..ReadEnd(s, 0) - 1];
  }

  lemma PrependTwice(t: seq<Setting>, u: seq<Setting>, l: Loaded)
    ensures Prepend(t, Prepend(u, l)) == Prepend(t + u, l)
  {
    if l.Table? {
      assert t + (u + l.entries) == (t + u) + l.entries;
    }
  }

  lemma {:induction false} PutShort(t: seq<Setting>, id: string, key: string, value: string)
    requires AllShort(t) && Short(Setting(id, key, value))
    ensures AllShort(Put(t, id, key, value)) && Put(t, id, key, value) != []
  {
    hide Short;
    if t != [] && !Names(t[0], id, key) {
      PutShort(t[1..], id, key, value);
    }
  }

  // ------------------------------------------------------------------
  // Runs
  // ------------------------------------------------------------------

  datatype Op = Write(id: string, key: string, value: string) | Read(id: string, key: string) | NewProcess

  /** The value of the last write for an id and a key, or the one before the run. */
  function LastWritten(t: seq<Setting>, ops: seq<Op>, id: string, key: string): Option<string> {
    if ops == [] then Lookup(t, id, key)
    else
      var op := ops[|ops| - 1];
      if op.Write? && op.id == id && op.key == key then Some(op.value)
      else LastWritten(t, ops[..|ops| - 1], id, key)
  }

  predicate ShortWrites(ops: seq<Op>) {
    forall k :: 0 <= k < |ops| && ops[k].Write? ==> Short(Setting(ops[k].id, ops[k].key, ops[k].value))
  }

  /** A value, if there is one, makes a clean entry. */
  predicate CleanValue(id: string, key: string, value: Option<string>) {
    value.Some? ==> Clean(Setting(id, key, value.value))
  }

  /** What was written last for every id and key is clean. */
  ghost predicate LastIsClean(t: seq<Setting>, ops: seq<Op>) {
    forall id, key :: CleanValue(id, key, LastWritten(t, ops, id, key))
  }

  /** Whenever a new process starts, what was written last is clean. */
  ghost predicate CleanAtRestarts(t: seq<Setting>, ops: seq<Op>) {
    forall k :: 0 <= k < |ops| && ops[k].NewProcess? ==> LastIsClean(t, ops[..k])
  }

  predicate IsFirst(t: seq<Setting>, k: nat)
    requires k < |t|
  {
    forall j :: 0 <= j < k ==> !Names(t[j], t[k].id, t[k].key)
  }

  /** An entry that hides behind another one is clean. */
  predicate FirstOrClean(t: seq<Setting>) {
    forall k :: 0 <= k < |t| ==> Clean(t[k]) || IsFirst(t, k)
  }

  lemma {:induction false} FirstNamed(t: seq<Setting>, id: string, key: string) returns (x: nat)
    ensures x <= |t| && (forall k :: 0 <= k < x ==> !Names(t[k], id, key)) && (x < |t| ==> Names(t[x], id, key))
  {
    hide Names;
    if t == [] || Names(t[0], id, key) {
      x := 0;
    } else {
      var y := FirstNamed(t[1..], id, key);
      x := y + 1;
    }
  }

  lemma PutFirstOrClean(t: seq<Setting>, id: string, key: string, value: string)
    requires FirstOrClean(t)
    ensures FirstOrClean(Put(t, id, key, value))
  {
    hide Put, Clean;
    var x := FirstNamed(t, id, key);
    FoundAt(t, x, id, key, value);
    var u := Put(t, id, key, value);
    forall k | 0 <= k < |u|
      ensures Clean(u[k]) || IsFirst(u, k)
    {
      if k < |t| && IsFirst(t, k) {
        assert forall j :: 0 <= j < k ==> !Names(t[j], t[k].id, t[k].key);
      }
    }
  }

  /** All entries are clean exactly if every value that can be looked up is. */
  lemma CleanLookups(t: seq<Setting>)
    requires FirstOrClean(t)
    ensures AllClean(t) <==> forall id, key :: CleanValue(id, key, Lookup(t, id, key))
  {
    hide Lookup, Clean;
    forall id, key | AllClean(t)
      ensures CleanValue(id, key, Lookup(t, id, key))
    {
      var x := FirstNamed(t, id, key);
      FoundAt(t, x, id, key, "");
      assert x < |t| ==> t[x] == Setting(id, key, t[x].value);
    }
    if k :| 0 <= k < |t| && !Clean(t[k]) {
      var e := t[k];
      FoundAt(t, k, e.id, e.key, "");
      assert e == Setting(e.id, e.key, e.value);
      assert !CleanValue(e.id, e.key, Lookup(t, e.id, e.key));
    }
  }

  /** The ids and keys that are written and were not in the table before. */
  function NewKeys(t: seq<Setting>, ops: seq<Op>): set<(string, string)> {
    set k | 0 <= k < |ops| && ops[k].Write? && Lookup(t, ops[k].id, ops[k].key).None? :: (ops[k].id, ops[k].key)
  }

  /** Nothing was written exactly for what was not in the table and is not among the new keys. */
  lemma {:induction false} NeverWritten(t: seq<Setting>, ops: seq<Op>, id: string, key: string)
    ensures LastWritten(t, ops, id, key).None? <==> Lookup(t, id, key).None? && (id, key) !in NewKeys(t, ops)
  {
    if ops != [] {
      var rest, op := ops[..|ops| - 1], ops[|ops| - 1];
      NeverWritten(t, rest, id, key);
      NewKeysMore(t, rest, op);
      assert ops == rest + [op];
    }
  }

  lemma NewKeysMore(t: seq<Setting>, ops: seq<Op>, op: Op)
    ensures NewKeys(t, ops + [op]) ==
      NewKeys(t, ops) + if op.Write? && Lookup(t, op.id, op.key).None? then {(op.id, op.key)} else {}
  {
    var all := ops + [op];
    forall x | x in NewKeys(t, ops)
      ensures x in NewKeys(t, all)
    {
      var k :|
        && 0 <= k < |ops| && ops[k].Write? && Lookup(t, ops[k].id, ops[k].key).None?
        && x == (ops[k].id, ops[k].key);
      assert all[k] == ops[k];
    }
    assert all[|ops|] == op;
    forall x | x in NewKeys(t, all)
      ensures x in NewKeys(t, ops) || (op.Write? && Lookup(t, op.id, op.key).None? && x == (op.id, op.key))
    {
      var k :|
        && 0 <= k < |all| && all[k].Write? && Lookup(t, all[k].id, all[k].key).None?
        && x == (all[k].id, all[k].key);
      assert k < |ops| ==> all[k] == ops[k];
    }
  }

  lemma {:induction false} FewerKeys(t: seq<Setting>, ops: seq<Op>, n: nat)
    requires n <= |ops|
    ensures |NewKeys(t, ops[..n])| <= |NewKeys(t, ops)|
    decreases |ops| - n
  {
    if n == |ops| {
      assert ops[..n] == ops;
    } else {
      FewerKeys(t, ops, n + 1);
      NewKeysMore(t, ops[..n], ops[n]);
      assert ops[..n + 1] == ops[..n] + [ops[n]];
      var more := NewKeys(t, ops[..n + 1]);
      assert more == NewKeys(t, ops[..n]) || more == NewKeys(t, ops[..n]) + {(ops[n].id, ops[n].key)};
    }
  }

  lemma {:induction false} PutSize(t: seq<Setting>, id: string, key: string, value: string)
    ensures |Put(t, id, key, value)| == |t| + if Lookup(t, id, key).Some? then 0 else 1
  {
    if t != [] && !Names(t[0], id, key) {
      PutSize(t[1..], id, key, value);
    }
  }

  /** What one write does to the size of the table and to the keys that are new. */
  lemma OneWrite(t: seq<Setting>, ops: seq<Op>, n: nat, u: seq<Setting>)
    requires n < |ops| && ops[n].Write? && |u| == |t| + |NewKeys(t, ops[..n])|
    requires |t| + |NewKeys(t, ops)| <= MAX_ENTRIES
    requires Lookup(u, ops[n].id, ops[n].key) == LastWritten(t, ops[..n], ops[n].id, ops[n].key)
    ensures var op := ops[n];
      && (|u| < MAX_ENTRIES || Lookup(u, op.id, op.key).Some?)
      && |Put(u, op.id, op.key, op.value)| == |t| + |NewKeys(t, ops[..n + 1])|
  {
    hide Put, Lookup, LastWritten, NewKeys;
    var op, keys := ops[n], NewKeys(t, ops[..n]);
    assert ops[..n + 1] == ops[..n] + [op];
    PutSize(u, op.id, op.key, op.value);
    NeverWritten(t, ops[..n], op.id, op.key);
    NewKeysMore(t, ops[..n], op);
    FewerKeys(t, ops, n + 1);
    if (op.id, op.key) in keys {
      assert keys + {(op.id, op.key)} == keys;
    } else {
      assert |keys + {(op.id, op.key)}| == |keys| + 1;
    }
  }

  /** After a write every lookup gives what was written last. */
  lemma WriteLookup(t: seq<Setting>, ops: seq<Op>, n: nat, u: seq<Setting>)
    requires n < |ops| && ops[n].Write?
    requires forall id, key :: Lookup(u, id, key) == LastWritten(t, ops[..n], id, key)
    ensures forall id, key ::
      Lookup(Put(u, ops[n].id, ops[n].key, ops[n].value), id, key) == LastWritten(t, ops[..n + 1], id, key)
  {
    hide Put, Lookup;
    assert ops[..n + 1][..n] == ops[..n];
    forall id, key
      ensures Lookup(Put(u, ops[n].id, ops[n].key, ops[n].value), id, key) == LastWritten(t, ops[..n + 1], id, key)
    {
      PutLookup(u, ops[n].id, ops[n].key, ops[n].value, id, key);
    }
  }

  lemma OtherOp(t: seq<Setting>, ops: seq<Op>, n: nat)
    requires n < |ops| && !ops[n].Write?
    ensures NewKeys(t, ops[..n + 1]) == NewKeys(t, ops[..n])
    ensures forall id, key :: LastWritten(t, ops[..n + 1], id, key) == LastWritten(t, ops[..n], id, key)
  {
    assert ops[..n + 1] == ops[..n] + [ops[n]] && ops[..n + 1][..n] == ops[..n];
    NewKeysMore(t, ops[..n], ops[n]);
  }

  lemma StoredIsClean(file: Option<string>)
    ensures AllClean(Stored(file))
  {
    if Load(file).Table? && file.Some? {
      ReadIsClean(file.value);
    }
  }

  /**
   * After any run of writes, reads and restarts the settings seen are the last ones written, as long as these
   * are clean whenever a process ends and the table has room for the keys that are new. Another process would
   * see the same settings exactly if they are clean now.
   */
  method Run(store: Store, ops: seq<Op>)
    requires store.Saved() && ShortWrites(ops) && CleanAtRestarts(store.View(), ops)
    requires |store.View()| + |NewKeys(store.View(), ops)| <= MAX_ENTRIES
    modifies store, store.table
    ensures store.Usable() && |store.View()| == old(|store.View()| + |NewKeys(store.View(), ops)|)
    ensures forall id, key :: Lookup(store.View(), id, key) == LastWritten(old(store.View()), ops, id, key)
    ensures store.Saved() <==> LastIsClean(old(store.View()), ops)
  {
    hide Put, Lookup, AllShort, Readable, Stored, Store.Saved, Store.View, Short, Clean, NewKeys, LastWritten, AllClean,
      FirstOrClean, LastIsClean;
    SavedIsClean(store);
    ghost var t := store.View();
    var n := 0;
    NoOps(t, ops);
    while n < |ops|
      invariant n <= |ops| && store.Usable() && |store.View()| == |t| + |NewKeys(t, ops[..n])|
      invariant forall id, key :: Lookup(store.View(), id, key) == LastWritten(t, ops[..n], id, key)
      invariant FirstOrClean(store.View()) && (store.Saved() <==> AllClean(store.View()))
    {
      ghost var u := store.View();
      match ops[n] {
        case Write(id, key, value) =>
          OneWrite(t, ops, n, u);
          WriteLookup(t, ops, n, u);
          PutFirstOrClean(u, id, key, value);
          store.Set(id, key, value);
        case Read(id, key) =>
          OtherOp(t, ops, n);
          var _, _ := store.Get(id, key);
        case NewProcess =>
          OtherOp(t, ops, n);
          CleanNow(t, ops[..n], u);
          ReadableIfSaved(store);
          store.Restart();
          ReadableIfSaved(store);
      }
      n := n + 1;
    }
    assert ops[..n] == ops;
    CleanNow(t, ops, store.View());
  }

  lemma CleanNow(t: seq<Setting>, ops: seq<Op>, u: seq<Setting>)
    requires FirstOrClean(u) && forall id, key :: Lookup(u, id, key) == LastWritten(t, ops, id, key)
    ensures AllClean(u) <==> LastIsClean(t, ops)
  {
    hide FirstOrClean, AllClean, CleanValue;
    CleanLookups(u);
    forall id, key
      ensures CleanValue(id, key, LastWritten(t, ops, id, key)) == CleanValue(id, key, Lookup(u, id, key))
    {
    }
    if LastIsClean(t, ops) {
      assert forall id, key :: CleanValue(id, key, Lookup(u, id, key));
    }
    if AllClean(u) {
      assert forall id, key :: CleanValue(id, key, Lookup(u, id, key));
      assert forall id, key :: CleanValue(id, key, LastWritten(t, ops, id, key));
    }
  }

  lemma NoOps(t: seq<Setting>, ops: seq<Op>)
    ensures NewKeys(t, ops[..0]) == {}
    ensures forall id, key :: LastWritten(t, ops[..0], id, key) == Lookup(t, id, key)
  {
  }

  lemma ReadableIfSaved(store: Store)
    ensures store.Saved() ==> store.Usable() && Readable(store.file) && Stored(store.file) == store.View()
  {
  }

  lemma SavedIsClean(store: Store)
    requires store.Saved()
    ensures store.Usable() && AllClean(store.View()) && FirstOrClean(store.View())
  {
    StoredIsClean(store.file);
  }
}
