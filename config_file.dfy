/**
 * The persisted configuration of the proxied process (`nsm-proxy.config`):
 * the durable fields of the descriptor, the text `dump` writes for them, the
 * record scanner `restore` runs over that text (one call of
 * `fscanf("%m[^\n]\n\t%m[^\n]\n")` per record), how a record updates the
 * fields, and the round trip between the two.
 */
module ConfigFile {
  import opened Wrappers
  import opened Text

  const FileName := "nsm-proxy.config"

  /** `asprintf("%s/%s", dir, CONFIG_FILE_NAME)`. */
  function PathIn(dir: string): string {
    dir + "/" + FileName
  }

  /** The file `dump(dir)` writes; glibc prints a NULL `%s` argument as "(null)". */
  function DumpTarget(dir: Option<string>): (p: string)
    ensures dir.Some? ==> p == PathIn(dir.value)
  {
    PathIn(dir.GetOr("(null)"))
  }

  /** The durable fields of the descriptor: what `dump` writes and `restore` reads. */
  datatype Settings = Settings(
    executable: Option<string>,
    arguments: Option<string>,
    configFile: Option<string>,
    saveSignal: int,
    stopSignal: int,
    labelText: Option<string>)

  /** One two-line record: `name`, then a tab and `value`. */
  datatype Entry = Entry(name: string, value: string)

  /** The six fields a record can name. */
  datatype Field = Executable | Arguments | ConfigPath | SaveSignal | StopSignal | Label

  /** The record name `dump` writes for each field. */
  function FieldName(f: Field): string {
    match f
    case Executable => "executable"
    case Arguments => "arguments"
    case ConfigPath => "config file"
    case SaveSignal => "save signal"
    case StopSignal => "stop signal"
    case Label => "label"
  }

  /** The `strcmp` chain of `restore`: which field a record name denotes, if any. */
  function FieldOf(name: string): Option<Field> {
    if name == "executable" then Some(Executable)
    else if name == "arguments" then Some(Arguments)
    else if name == "config file" then Some(ConfigPath)
    else if name == "save signal" then Some(SaveSignal)
    else if name == "stop signal" then Some(StopSignal)
    else if name == "label" then Some(Label)
    else None
  }

  /** Every name `dump` writes is recognised by `restore` as the same field. */
  lemma FieldOfName(f: Field)
    ensures FieldOf(FieldName(f)) == Some(f)
  {
  }

  /** The test `p && strlen(p)` that guards each text field in `dump`. */
  predicate Present(v: Option<string>) {
    v.Some? && |v.value| > 0
  }

  function Optional(f: Field, v: Option<string>): seq<Entry> {
    if Present(v) then [Entry(FieldName(f), v.value)] else []
  }

  /** The records `dump` writes for `s`, in the order it writes them. */
  function Entries(s: Settings): seq<Entry> {
    Optional(Executable, s.executable) + Optional(Arguments, s.arguments) +
    Optional(ConfigPath, s.configFile) + Signals(s) + Optional(Label, s.labelText)
  }

  function Signals(s: Settings): seq<Entry> {
    [Entry(FieldName(SaveSignal), IntToString(s.saveSignal)), Entry(FieldName(StopSignal), IntToString(s.stopSignal))]
  }

  lemma FieldNamesDistinct()
    ensures forall f, g :: FieldOf(FieldName(f)) == Some(g) <==> f == g
  {
    forall f { FieldOfName(f); }
  }

  /** `fprintf(fp, "<name>\n\t%s\n", value)`. */
  function EncodeEntry(e: Entry): string {
    e.name + "\n\t" + e.value + "\n"
  }

  function Encode(es: seq<Entry>): string {
    if es == [] then "" else EncodeEntry(es[0]) + Encode(es[1..])
  }

  /** The whole text of the file `dump` writes. */
  function Render(s: Settings): string {
    Encode(Entries(s))
  }

  /**
   * One `fscanf(fp, "%m[^\n]\n\t%m[^\n]\n", &name, &value)` call returning 2:
   * a non-empty name up to the newline, any white space (the `\n` and `\t`
   * directives each skip any amount of it), a non-empty value up to the
   * newline, then any white space. `None` when either conversion fails.
   */
  function ScanRecord(s: string): (r: Option<(Entry, string)>)
    ensures r.Some? ==> |r.value.1| < |s|
    ensures r.Some? ==> |r.value.0.name| > 0 && '\n' !in r.value.0.name
    ensures r.Some? ==> |r.value.0.value| > 0 && '\n' !in r.value.0.value && !IsSpace(r.value.0.value[0])
  {
    var name := Line(s);
    if name == [] then None
    else
      var afterName := SkipSpace(s[|name|..]);
      var value := Line(afterName);
      if value == [] then None
      else Some((Entry(name, value), SkipSpace(afterName[|value|..])))
  }

  /** The records the `restore` loop reads, until the first `fscanf` that does not return 2. */
  function Records(s: string): seq<Entry>
    decreases |s|
  {
    match ScanRecord(s)
    case None => []
    case Some((e, rest)) => [e] + Records(rest)
  }

  /** How one record updates the fields; an unknown name changes nothing. */
  function Apply(s: Settings, e: Entry): Settings {
    match FieldOf(e.name)
    case None => s
    case Some(Executable) => s.(executable := Some(e.value))
    case Some(Arguments) => s.(arguments := Some(e.value))
    case Some(ConfigPath) => s.(configFile := Some(e.value))
    case Some(SaveSignal) => s.(saveSignal := Atoi(e.value))
    case Some(StopSignal) => s.(stopSignal := Atoi(e.value))
    case Some(Label) => s.(labelText := Some(e.value))
  }

  /** The records applied one after another, in file order. */
  function ApplyAll(s: Settings, es: seq<Entry>): Settings
    decreases |es|
  {
    if es == [] then s else ApplyAll(Apply(s, es[0]), es[1..])
  }

  /** The label values among the records, in order: each is announced by `label()`. */
  function Labels(es: seq<Entry>): seq<string>
    decreases |es|
  {
    if es == [] then []
    else (if FieldOf(es[0].name) == Some(Label) then [es[0].value] else []) + Labels(es[1..])
  }

  /** What restoring a dump of `s` over `prior` gives: each text field `dump` omitted keeps its prior value. */
  function Merge(prior: Settings, s: Settings): Settings {
    Settings(
      if Present(s.executable) then s.executable else prior.executable,
      if Present(s.arguments) then s.arguments else prior.arguments,
      if Present(s.configFile) then s.configFile else prior.configFile,
      s.saveSignal,
      s.stopSignal,
      if Present(s.labelText) then s.labelText else prior.labelText)
  }

  /** A value the scanner reads back intact: on one line and not starting with white space. */
  predicate Storable(v: Option<string>) {
    Present(v) ==> '\n' !in v.value && !IsSpace(v.value[0])
  }

  predicate StorableSettings(s: Settings) {
    Storable(s.executable) && Storable(s.arguments) && Storable(s.configFile) && Storable(s.labelText)
  }

  /** A record that scans back to itself, when what follows does not start with white space. */
  predicate WellFormed(e: Entry) {
    |e.name| > 0 && '\n' !in e.name && !IsSpace(e.name[0]) &&
    |e.value| > 0 && '\n' !in e.value && !IsSpace(e.value[0])
  }

  lemma {:induction false} LineUpToNewline(a: string, b: string)
    requires '\n' !in a
    ensures Line(a + (['\n'] + b)) == a
  {
    if a != [] {
      assert (a + (['\n'] + b))[1..] == a[1..] + (['\n'] + b);
      LineUpToNewline(a[1..], b);
    } else {
      assert a + (['\n'] + b) == ['\n'] + b;
    }
  }

  lemma SkipOneSpace(c: char, t: string)
    requires IsSpace(c)
    ensures SkipSpace([c] + t) == SkipSpace(t)
  {
    assert ([c] + t)[1..] == t;
  }

  /** The text of a record followed by `rest`, split where the scanner looks at it. */
  lemma EncodeEntryShape(e: Entry, rest: string)
    ensures EncodeEntry(e) + rest == e.name + (['\n'] + (['\t'] + (e.value + (['\n'] + rest))))
  {
  }

  lemma ScanEncoded(e: Entry, rest: string)
    requires WellFormed(e)
    requires rest == [] || !IsSpace(rest[0])
    ensures ScanRecord(EncodeEntry(e) + rest) == Some((e, rest))
  {
    var tail := ['\n'] + rest;
    var v := e.value + tail;
    var sep := ['\n'] + (['\t'] + v);
    var s := EncodeEntry(e) + rest;
    EncodeEntryShape(e, rest);
    assert s == e.name + sep;
    LineUpToNewline(e.name, ['\t'] + v);
    assert s[|e.name|..] == sep;
    SkipOneSpace('\n', ['\t'] + v);
    SkipOneSpace('\t', v);
    assert v[0] == e.value[0];
    assert SkipSpace(sep) == v;
    LineUpToNewline(e.value, rest);
    assert v[|e.value|..] == tail;
    SkipOneSpace('\n', rest);
  }

  lemma {:induction false} EncodeConcat(a: seq<Entry>, b: seq<Entry>)
    ensures Encode(a + b) == Encode(a) + Encode(b)
    decreases |a|
  {
    if a != [] {
      assert (a + b)[1..] == a[1..] + b;
      EncodeConcat(a[1..], b);
    } else {
      assert a + b == b;
    }
  }

  /** Printing one more record appends its text. */
  lemma EncodeSnoc(es: seq<Entry>, e: Entry)
    ensures Encode(es + [e]) == Encode(es) + EncodeEntry(e)
  {
    EncodeConcat(es, [e]);
    assert Encode([e]) == EncodeEntry(e) + Encode([]);
  }

  /** Scanning the encoding of well-formed records gives the records back. */
  lemma {:induction false} RecordsOfEncode(es: seq<Entry>)
    requires AllWellFormed(es)
    ensures Records(Encode(es)) == es
  {
    if es != [] {
      var rest := Encode(es[1..]);
      if es[1..] != [] {
        assert rest == EncodeEntry(es[1]) + Encode(es[2..]);
        assert rest[0] == es[1].name[0];
      }
      ScanEncoded(es[0], rest);
      RecordsOfEncode(es[1..]);
    }
  }

  lemma {:induction false} ApplyAllConcat(s: Settings, a: seq<Entry>, b: seq<Entry>)
    ensures ApplyAll(s, a + b) == ApplyAll(ApplyAll(s, a), b)
    decreases |a|
  {
    if a != [] {
      assert (a + b)[1..] == a[1..] + b;
      ApplyAllConcat(Apply(s, a[0]), a[1..], b);
    } else {
      assert a + b == b;
    }
  }

  lemma {:induction false} LabelsConcat(a: seq<Entry>, b: seq<Entry>)
    ensures Labels(a + b) == Labels(a) + Labels(b)
    decreases |a|
  {
    if a != [] {
      assert (a + b)[1..] == a[1..] + b;
      LabelsConcat(a[1..], b);
    } else {
      assert a + b == b;
    }
  }

  lemma ApplyOptional(s: Settings, f: Field, v: Option<string>)
    ensures ApplyAll(s, Optional(f, v)) == if Present(v) then Apply(s, Entry(FieldName(f), v.value)) else s
    ensures Labels(Optional(f, v)) == if Present(v) && f == Label then [v.value] else []
  {
    FieldNamesDistinct();
    if Present(v) {
      assert Optional(f, v)[1..] == [];
    }
  }

  lemma ApplySignals(s: Settings, d: Settings)
    ensures ApplyAll(s, Signals(d)) == s.(saveSignal := d.saveSignal, stopSignal := d.stopSignal)
    ensures Labels(Signals(d)) == []
  {
    FieldOfName(SaveSignal);
    FieldOfName(StopSignal);
    AtoiRoundTrip(d.saveSignal);
    AtoiRoundTrip(d.stopSignal);
    var sig := Signals(d);
    var s1 := Apply(s, sig[0]);
    assert s1 == s.(saveSignal := d.saveSignal);
    var s2 := Apply(s1, sig[1]);
    assert s2 == s1.(stopSignal := d.stopSignal);
    assert sig[1..][1..] == [];
    assert ApplyAll(s1, sig[1..]) == ApplyAll(s2, []);
    assert Labels(sig[1..]) == [] + Labels(sig[1..][1..]);
  }

  /** Applying the records `dump` writes updates exactly the fields they carry. */
  lemma ApplyEntries(prior: Settings, s: Settings)
    ensures ApplyAll(prior, Entries(s)) == Merge(prior, s)
    ensures Labels(Entries(s)) == if Present(s.labelText) then [s.labelText.value] else []
  {
    FieldNamesDistinct();
    var e1 := Optional(Executable, s.executable);
    var e2 := Optional(Arguments, s.arguments);
    var e3 := Optional(ConfigPath, s.configFile);
    var sig := Signals(s);
    var e4 := Optional(Label, s.labelText);
    var s1 := ApplyAll(prior, e1);
    var s2 := ApplyAll(s1, e2);
    var s3 := ApplyAll(s2, e3);
    var s4 := ApplyAll(s3, sig);
    ApplyOptional(prior, Executable, s.executable);
    ApplyOptional(s1, Arguments, s.arguments);
    ApplyOptional(s2, ConfigPath, s.configFile);
    ApplySignals(s3, s);
    ApplyOptional(s4, Label, s.labelText);
    ApplyAllConcat(prior, e1, e2);
    ApplyAllConcat(prior, e1 + e2, e3);
    ApplyAllConcat(prior, e1 + e2 + e3, sig);
    ApplyAllConcat(prior, e1 + e2 + e3 + sig, e4);
    LabelsConcat(e1, e2);
    LabelsConcat(e1 + e2, e3);
    LabelsConcat(e1 + e2 + e3, sig);
    LabelsConcat(e1 + e2 + e3 + sig, e4);
  }

  predicate AllWellFormed(es: seq<Entry>) {
    forall i :: 0 <= i < |es| ==> WellFormed(es[i])
  }

  lemma AllWellFormedConcat(a: seq<Entry>, b: seq<Entry>)
    requires AllWellFormed(a) && AllWellFormed(b)
    ensures AllWellFormed(a + b)
  {
    forall i | 0 <= i < |a + b| ensures WellFormed((a + b)[i]) {
      if i >= |a| {
        assert (a + b)[i] == b[i - |a|];
      }
    }
  }

  lemma OptionalWellFormed(f: Field, v: Option<string>)
    requires Storable(v)
    ensures AllWellFormed(Optional(f, v))
  {
    if Present(v) {
      var e := Optional(f, v)[0];
      assert e.name[0] == FieldName(f)[0];
    }
  }

  lemma SignalsWellFormed(s: Settings)
    ensures AllWellFormed(Signals(s))
  {
    NumberOnOneLine(s.saveSignal);
    NumberOnOneLine(s.stopSignal);
    var sig := Signals(s);
    assert sig[0].name[0] == 's' && sig[1].name[0] == 's';
  }

  /** A number printed with `%i` holds no newline. */
  lemma NumberOnOneLine(n: int)
    ensures '\n' !in IntToString(n)
  {
    var r := IntToString(n);
    forall k | 0 <= k < |r| ensures r[k] != '\n' {
      if n < 0 && k > 0 {
        assert r[k] == NatToString(-n)[k - 1];
      }
    }
  }

  /** Every record `dump` writes is one the scanner reads back intact. */
  lemma EntriesWellFormed(s: Settings)
    requires StorableSettings(s)
    ensures AllWellFormed(Entries(s))
  {
    var e1 := Optional(Executable, s.executable);
    var e2 := Optional(Arguments, s.arguments);
    var e3 := Optional(ConfigPath, s.configFile);
    var sig := Signals(s);
    var e4 := Optional(Label, s.labelText);
    OptionalWellFormed(Executable, s.executable);
    OptionalWellFormed(Arguments, s.arguments);
    OptionalWellFormed(ConfigPath, s.configFile);
    SignalsWellFormed(s);
    OptionalWellFormed(Label, s.labelText);
    AllWellFormedConcat(e1, e2);
    AllWellFormedConcat(e1 + e2, e3);
    AllWellFormedConcat(e1 + e2 + e3, sig);
    AllWellFormedConcat(e1 + e2 + e3 + sig, e4);
  }

  /**
   * The round trip: restoring the text `dump` wrote for `s` reads back every
   * record it wrote, so both signals and every written text field take the
   * dumped value and every omitted one keeps its prior value.
   */
  lemma RestoreOfDump(prior: Settings, s: Settings)
    requires StorableSettings(s)
    ensures Records(Render(s)) == Entries(s)
    ensures ApplyAll(prior, Records(Render(s))) == Merge(prior, s)
    ensures Labels(Records(Render(s))) == if Present(s.labelText) then [s.labelText.value] else []
  {
    EntriesWellFormed(s);
    RecordsOfEncode(Entries(s));
    ApplyEntries(prior, s);
  }

  /** With all four text fields written, the restored settings are exactly the dumped ones, whatever came before. */
  lemma RestoreOfFullDump(prior: Settings, s: Settings)
    requires StorableSettings(s)
    requires Present(s.executable) && Present(s.arguments) && Present(s.configFile) && Present(s.labelText)
    ensures ApplyAll(prior, Records(Render(s))) == s
  {
    RestoreOfDump(prior, s);
  }
}
