/** The on-disk checkpoint of the supply index: its text format, and how it reaches the disk
    (src/SupplyIndex.cpp, load and persist). */
module Checkpoint {
  import opened Basics
  import opened Decimal
  import opened Text
  import opened SupplyMath

  const MAGIC := "QWC_SUPPLY_INDEX_V2"
  const VERSION := "actual-coinbase-minus-fees-v1"

  /** What a checkpoint is bound to. paddedWide is how the big-integer library reads a digit string with
      a redundant leading zero, which no checkpoint written here contains: every result holds for all of them. */
  datatype Config = Config(network: string, genesis: string, resetId: string, paddedWide: string -> Option<u128>)
  {
    function Fields(): (f: seq<string>) {
      [MAGIC, network, genesis, resetId, VERSION]
    }
  }

  predicate CleanConfig(c: Config) {
    Clean(c.network) && Clean(c.genesis) && Clean(c.resetId)
  }

  // --- numbers ---------------------------------------------------------------------------------

  predicate IsSpace(c: char) {
    c == ' ' || '\t' <= c <= '\r'
  }

  function SkipSpace(s: string): (r: string) {
    if s != "" && IsSpace(s[0]) then SkipSpace(s[1..]) else s
  }

  /** parse_u64: std::stoull that must consume the whole text, so blanks and a sign are accepted in front
      and a minus sign negates modulo 2^64. */
  function ParseU64(text: string): (v: Option<u64>) {
    var body := SkipSpace(text);
    var signed := body != "" && (body[0] == '+' || body[0] == '-');
    var digits := if signed then body[1..] else body;
    if digits == "" || !AllDigits(digits) || Value(digits) >= TWO_64 then None
    else if signed && body[0] == '-' then Some((TWO_64 - Value(digits)) % TWO_64)
    else Some(Value(digits))
  }

  function ParseWide(c: Config, text: string): (v: Option<u128>) {
    if text == "" || !AllDigits(text) then None
    else if |text| > 1 && text[0] == '0' then c.paddedWide(text)
    else if Value(text) >= TWO_128 then None
    else Some(Value(text))
  }

  lemma ParsePrint(c: Config, n: nat)
    ensures n < TWO_64 ==> ParseU64(Print(n)) == Some(n)
    ensures n < TWO_128 ==> ParseWide(c, Print(n)) == Some(n)
  {
    ValueOfPrint(n);
    assert IsDigit(Print(n)[0]);
  }

  lemma PrintClean(n: nat)
    ensures Clean(Print(n))
  {
    assert forall i :: 0 <= i < |Print(n)| ==> IsDigit(Print(n)[i]);
  }

  // --- rows ------------------------------------------------------------------------------------

  function RowFields(r: Record): (f: seq<string>)
    ensures |f| == 9
  {
    [Print(r.height), r.hash, r.parent, Print(r.coinbase), Print(r.fees), Print(r.minted),
     Print(r.cumCoinbase), Print(r.cumFees), Print(r.cumMinted)]
  }

  function Row(r: Record): (line: string) {
    Join(RowFields(r), '\t')
  }

  function ParseRow(c: Config, f: seq<string>): (r: Option<Record>) {
    if |f| != 9 then None
    else
      var h, cb, fe, mi := ParseU64(f[0]), ParseU64(f[3]), ParseU64(f[4]), ParseU64(f[5]);
      var cc, cf, cm := ParseWide(c, f[6]), ParseWide(c, f[7]), ParseWide(c, f[8]);
      if h.None? || cb.None? || fe.None? || mi.None? || cc.None? || cf.None? || cm.None? then None
      else Some(Record(h.value, f[1], f[2], cb.value, fe.value, mi.value, cc.value, cf.value, cm.value))
  }

  /** The row tests of load. */
  predicate RowAccepted(loaded: seq<Record>, r: Record) {
    && r.height == |loaded|
    && r.coinbase >= r.fees
    && r.minted == r.coinbase - r.fees
    && (r.height == 0 ==> r.parent == "")
    && (r.height > 0 ==> r.parent == loaded[|loaded| - 1].hash)
    && CheckedAdd(Prior(loaded, |loaded|).coinbase, r.coinbase) == Some(r.cumCoinbase)
    && CheckedAdd(Prior(loaded, |loaded|).fees, r.fees) == Some(r.cumFees)
    && CheckedAdd(Prior(loaded, |loaded|).minted, r.minted) == Some(r.cumMinted)
  }

  function DecodeRows(c: Config, lines: seq<string>, loaded: seq<Record>): (rs: Option<seq<Record>>)
    decreases |lines|
  {
    if lines == [] then Some(loaded)
    else
      var r := ParseRow(c, Split(lines[0], '\t', 0));
      if r.None? || !RowAccepted(loaded, r.value) then None
      else DecodeRows(c, lines[1..], loaded + [r.value])
  }

  function Decode(c: Config, text: string): (rs: Option<seq<Record>>) {
    var lines := Lines(text, 0);
    if lines == [] || Split(lines[0], '\t', 0) != c.Fields() then None
    else DecodeRows(c, lines[1..], [])
  }

  function Rows(rs: seq<Record>): (lines: seq<string>)
    ensures |lines| == |rs| && forall i :: 0 <= i < |rs| ==> lines[i] == Row(rs[i])
  {
    seq(|rs|, i requires 0 <= i < |rs| => Row(rs[i]))
  }

  function Encode(c: Config, rs: seq<Record>): (text: string) {
    Unlines([Join(c.Fields(), '\t')] + Rows(rs))
  }

  /** A row is the nine fields in this order, with tabs between them. */
  lemma RowLayout(r: Record)
    ensures Row(r) == Print(r.height) + "\t" + (r.hash + "\t" + (r.parent + "\t" + (Print(r.coinbase) + "\t"
              + (Print(r.fees) + "\t" + (Print(r.minted) + "\t" + (Print(r.cumCoinbase) + "\t"
              + (Print(r.cumFees) + "\t" + Print(r.cumMinted))))))))
  {
    hide Print;
    var f := RowFields(r);
    assert Join(f[8..], '\t') == f[8];
    assert forall k :: 0 <= k < 8 ==> f[k..][1..] == f[k + 1..] && f[k..][0] == f[k];
    JoinFrom(f, 7);
    JoinFrom(f, 6);
    JoinFrom(f, 5);
    JoinFrom(f, 4);
    JoinFrom(f, 3);
    JoinFrom(f, 2);
    JoinFrom(f, 1);
    JoinFrom(f, 0);
    assert f[0..] == f;
  }

  lemma JoinFrom(f: seq<string>, k: nat)
    requires k + 1 < |f|
    ensures Join(f[k..], '\t') == f[k] + "\t" + Join(f[k + 1..], '\t')
  {
    assert f[k..][1..] == f[k + 1..];
  }

  /** parse_u64 also takes white space and a sign in front; a minus sign negates modulo 2^64. */
  lemma SignedNumbersParse(pad: string, digits: string)
    requires digits != "" && AllDigits(digits) && Value(digits) < TWO_64
    requires forall i :: 0 <= i < |pad| ==> pad[i] == ' '
    ensures ParseU64(pad + digits) == ParseU64(pad + ("+" + digits)) == Some(Value(digits))
    ensures ParseU64(pad + ("-" + digits)) == Some((TWO_64 - Value(digits)) % TWO_64)
  {
    SkipsPad(pad, digits);
    SkipsPad(pad, "+" + digits);
    SkipsPad(pad, "-" + digits);
    assert ("+" + digits)[1..] == digits && ("-" + digits)[1..] == digits;
    hide SkipSpace;
    assert IsDigit(digits[0]);
  }

  lemma {:induction false} SkipsPad(pad: string, s: string)
    requires s != "" && !IsSpace(s[0]) && forall i :: 0 <= i < |pad| ==> pad[i] == ' '
    ensures SkipSpace(pad + s) == s
    decreases |pad|
  {
    if pad == "" {
      assert pad + s == s;
    } else {
      assert (pad + s)[0] == ' ' && (pad + s)[1..] == pad[1..] + s;
      SkipsPad(pad[1..], s);
    }
  }

  // --- results ---------------------------------------------------------------------------------

  lemma {:induction false} DecodedRowsAccumulate(c: Config, lines: seq<string>, loaded: seq<Record>)
    requires Accumulated(loaded)
    ensures DecodeRows(c, lines, loaded).Some? ==> Accumulated(DecodeRows(c, lines, loaded).value)
    decreases |lines|
  {
    if lines != [] {
      var r := ParseRow(c, Split(lines[0], '\t', 0));
      if r.Some? && RowAccepted(loaded, r.value) {
        var next := loaded + [r.value];
        forall i | 0 <= i < |next| ensures Continues(next, i) {
          if i < |loaded| {
            assert Continues(loaded, i);
          }
        }
        DecodedRowsAccumulate(c, lines[1..], next);
      }
    }
  }

  /** Any text load accepts gives consecutive heights, parent links and exact prefix sums. */
  lemma AcceptedTextAccumulates(c: Config, text: string)
    ensures Decode(c, text).Some? ==> Accumulated(Decode(c, text).value) && Clean(c.resetId)
  {
    var lines := Lines(text, 0);
    if Decode(c, text).Some? {
      DecodedRowsAccumulate(c, lines[1..], []);
      var header := Split(lines[0], '\t', 0);
      assert header[3] == c.resetId && Free(header[3], '\t');
      FieldOfLine(lines[0], '\t', '\n', 0);
    }
  }

  lemma {:induction false} FieldOfLine(s: string, c: char, d: char, from: nat)
    requires from <= |s| && Free(s, d)
    ensures forall i :: 0 <= i < |Split(s, c, from)| ==> Free(Split(s, c, from)[i], d)
    decreases |s| - from
  {
    var end := Find(s, c, from);
    if end < |s| {
      FieldOfLine(s, c, d, end + 1);
    }
  }

  lemma CleanJoin(parts: seq<string>)
    requires parts != [] && forall i :: 0 <= i < |parts| ==> Clean(parts[i])
    ensures Free(Join(parts, '\t'), '\n')
    ensures Split(Join(parts, '\t'), '\t', 0) == parts
  {
    SplitOfJoin("", parts, '\t');
    assert "" + Join(parts, '\t') == Join(parts, '\t');
    JoinFree(parts);
  }

  lemma {:induction false} JoinFree(parts: seq<string>)
    requires parts != [] && forall i :: 0 <= i < |parts| ==> Free(parts[i], '\n')
    ensures Free(Join(parts, '\t'), '\n')
    decreases |parts|
  {
    if |parts| > 1 {
      JoinFree(parts[1..]);
    }
  }

  predicate CleanRecord(r: Record) {
    Clean(r.hash) && Clean(r.parent)
  }

  lemma RowFieldsParse(c: Config, r: Record)
    ensures ParseRow(c, RowFields(r)) == Some(r)
  {
    ParsePrint(c, r.height);
    ParsePrint(c, r.coinbase);
    ParsePrint(c, r.fees);
    ParsePrint(c, r.minted);
    ParsePrint(c, r.cumCoinbase);
    ParsePrint(c, r.cumFees);
    ParsePrint(c, r.cumMinted);
  }

  lemma RowFieldsClean(r: Record)
    requires CleanRecord(r)
    ensures forall i :: 0 <= i < 9 ==> Clean(RowFields(r)[i])
  {
    PrintClean(r.height);
    PrintClean(r.coinbase);
    PrintClean(r.fees);
    PrintClean(r.minted);
    PrintClean(r.cumCoinbase);
    PrintClean(r.cumFees);
    PrintClean(r.cumMinted);
  }

  lemma RowRoundTrip(c: Config, r: Record)
    requires CleanRecord(r)
    ensures Free(Row(r), '\n')
    ensures ParseRow(c, Split(Row(r), '\t', 0)) == Some(r)
  {
    RowFieldsClean(r);
    CleanJoin(RowFields(r));
    RowFieldsParse(c, r);
  }

  lemma NextRowAccepted(rs: seq<Record>, k: nat)
    requires Accumulated(rs) && k < |rs|
    ensures RowAccepted(rs[..k], rs[k])
  {
    assert Continues(rs, k);
    assert Prior(rs[..k], k) == Prior(rs, k);
  }

  lemma DecodeRowsStep(c: Config, lines: seq<string>, loaded: seq<Record>, r: Record)
    requires lines != [] && ParseRow(c, Split(lines[0], '\t', 0)) == Some(r) && RowAccepted(loaded, r)
    ensures DecodeRows(c, lines, loaded) == DecodeRows(c, lines[1..], loaded + [r])
  {
    hide ParseRow, RowAccepted, Split;
  }

  lemma DecodeNextRow(c: Config, rs: seq<Record>, k: nat)
    requires Accumulated(rs) && k < |rs| && CleanRecord(rs[k])
    ensures DecodeRows(c, Rows(rs)[k..], rs[..k]) == DecodeRows(c, Rows(rs)[k + 1..], rs[..k + 1])
  {
    hide ParseRow, RowAccepted, Split, DecodeRows, Row, Accumulated, CleanRecord;
    RowRoundTrip(c, rs[k]);
    NextRowAccepted(rs, k);
    var lines := Rows(rs)[k..];
    assert lines[0] == Row(rs[k]) && lines[1..] == Rows(rs)[k + 1..];
    DecodeRowsStep(c, lines, rs[..k], rs[k]);
    assert rs[..k] + [rs[k]] == rs[..k + 1];
  }

  lemma {:induction false} RowsRoundTrip(c: Config, rs: seq<Record>, k: nat)
    requires Accumulated(rs) && k <= |rs|
    requires forall i :: 0 <= i < |rs| ==> CleanRecord(rs[i])
    ensures DecodeRows(c, Rows(rs)[k..], rs[..k]) == Some(rs)
    decreases |rs| - k
  {
    if k == |rs| {
      assert rs[..k] == rs;
    } else {
      DecodeNextRow(c, rs, k);
      RowsRoundTrip(c, rs, k + 1);
    }
  }

  /** Reading under c what was written under w: exactly the records written when the two bindings agree,
      and a rejection otherwise. */
  lemma LoadAfterPersist(c: Config, w: Config, rs: seq<Record>)
    requires Accumulated(rs) && CleanConfig(w)
    requires forall i :: 0 <= i < |rs| ==> CleanRecord(rs[i])
    ensures Decode(c, Encode(w, rs)) == if c.Fields() == w.Fields() then Some(rs) else None
  {
    var lines := [Join(w.Fields(), '\t')] + Rows(rs);
    assert Clean(MAGIC) && Clean(VERSION);
    CleanJoin(w.Fields());
    forall i | 0 <= i < |rs| ensures Free(Rows(rs)[i], '\n') {
      RowRoundTrip(c, rs[i]);
    }
    LinesOfUnlines("", lines);
    assert "" + Unlines(lines) == Unlines(lines);
    RowsRoundTrip(c, rs, 0);
    assert lines[1..] == Rows(rs)[0..];
    assert rs[..0] == [];
  }

  /** The round trip holds exactly for reset ids without a tab or newline; any other makes every
      restart discard the checkpoint. */
  lemma RoundTripIffCleanResetId(c: Config, rs: seq<Record>)
    requires Accumulated(rs) && Clean(c.network) && Clean(c.genesis)
    requires forall i :: 0 <= i < |rs| ==> CleanRecord(rs[i])
    ensures Decode(c, Encode(c, rs)) == Some(rs) <==> Clean(c.resetId)
    ensures Decode(c, Encode(c, rs)) == None <==> !Clean(c.resetId)
  {
    AcceptedTextAccumulates(c, Encode(c, rs));
    if Clean(c.resetId) {
      LoadAfterPersist(c, c, rs);
    }
  }

  // --- reading and writing in the source's loops -----------------------------------------------

  method Load(c: Config, file: Option<string>) returns (ok: bool, records: Option<seq<Record>>)
    ensures ok <==> file.None? || Decode(c, file.value).Some?
    ensures records == if file.None? then None else Decode(c, file.value)
  {
    if file.None? {
      return true, None;
    }
    var lines := Lines(file.value, 0);
    if lines == [] {
      return false, None;
    }
    var header := SplitTabs(lines[0]);
    if |header| != 5 || header[0] != MAGIC || header[1] != c.network || header[2] != c.genesis
       || header[3] != c.resetId || header[4] != VERSION {
      assert header != c.Fields();
      return false, None;
    }
    assert header == c.Fields();
    var loaded: seq<Record> := [];
    var i := 1;
    while i < |lines|
      invariant 1 <= i <= |lines|
      invariant DecodeRows(c, lines[1..], []) == DecodeRows(c, lines[i..], loaded)
    {
      var fields := SplitTabs(lines[i]);
      var r := ParseRow(c, fields);
      if r.None? || !RowAccepted(loaded, r.value) {
        return false, None;
      }
      loaded := loaded + [r.value];
      assert lines[i..][1..] == lines[i + 1..];
      i := i + 1;
    }
    return true, Some(loaded);
  }

  method Format(c: Config, rs: seq<Record>) returns (output: string)
    ensures output == Encode(c, rs)
  {
    output := Join(c.Fields(), '\t') + "\n";
    var header := [Join(c.Fields(), '\t')];
    assert output == Unlines(header + Rows(rs)[..0]) by {
      assert header + Rows(rs)[..0] == header;
      assert header[1..] == [];
      assert output == header[0] + "\n" + "";
    }
    for i := 0 to |rs|
      invariant output == Unlines(header + Rows(rs)[..i])
    {
      UnlinesAppend(header + Rows(rs)[..i], Row(rs[i]));
      assert header + Rows(rs)[..i + 1] == header + Rows(rs)[..i] + [Row(rs[i])];
      output := output + Row(rs[i]) + "\n";
    }
    assert Rows(rs)[..|rs|] == Rows(rs);
  }

  // --- the disk --------------------------------------------------------------------------------

  datatype File = File(text: string, synced: bool)

  /** state and temp are what open() finds; durable is the state file a crash may bring back while the
      directory entry has not been synced. */
  datatype Disk = Disk(state: Option<File>, temp: Option<File>, durable: Option<File>)

  /** The last step of persist that took effect, whether because the next one failed or because the
      process died. */
  datatype Stage = Untouched | Written(chars: nat) | Synced | Renamed | DirectorySynced

  predicate PersistSucceeds(s: Stage) {
    s.Renamed? || s.DirectorySynced?
  }

  function WriteTemp(d: Disk, text: string): (out: Disk) {
    d.(temp := Some(File(text, false)))
  }

  function SyncTemp(d: Disk): (out: Disk) {
    if d.temp.Some? then d.(temp := Some(d.temp.value.(synced := true))) else d
  }

  /** rename() replaces the directory entry at once, with whatever the temporary file holds. */
  function RenameTemp(d: Disk): (out: Disk) {
    d.(state := d.temp, temp := None)
  }

  function SyncDirectory(d: Disk): (out: Disk) {
    d.(durable := d.state)
  }

  function DiskAt(d: Disk, text: string, s: Stage): (out: Disk) {
    match s
    case Untouched => d
    case Written(n) => WriteTemp(d, text[..Min(n, |text|)])
    case Synced => SyncTemp(WriteTemp(d, text))
    case Renamed => RenameTemp(SyncTemp(WriteTemp(d, text)))
    case DirectorySynced => SyncDirectory(RenameTemp(SyncTemp(WriteTemp(d, text))))
  }

  /** What a crash makes of a file: unsynced contents are anything. */
  function Survives(f: Option<File>, garbage: string): (out: Option<File>) {
    if f.Some? && !f.value.synced then Some(File(garbage, true)) else f
  }

  /** The disk after a crash: an unsynced rename may be lost, unsynced contents are arbitrary. */
  datatype Loss = Loss(renameLost: bool, stateGarbage: string, tempGarbage: string)

  function AfterCrash(d: Disk, l: Loss): (out: Disk) {
    var state := Survives(if l.renameLost then d.durable else d.state, l.stateGarbage);
    Disk(state, Survives(d.temp, l.tempGarbage), state)
  }

  ghost predicate Settled(d: Disk) {
    d.durable == d.state && (d.state.Some? ==> d.state.value.synced)
  }

  /** With a crash allowed after any step, the state file is the whole old or the whole new checkpoint,
      and restarting from it reads back whole records. */
  lemma CrashLeavesOldOrNew(c: Config, d: Disk, rs: seq<Record>, s: Stage, l: Loss)
    requires Settled(d)
    requires Accumulated(rs) && CleanConfig(c) && forall i :: 0 <= i < |rs| ==> CleanRecord(rs[i])
    ensures var after := AfterCrash(DiskAt(d, Encode(c, rs), s), l);
            && Settled(after)
            && (after.state == d.state
                || (after.state.Some? && after.state.value.text == Encode(c, rs)
                    && Decode(c, after.state.value.text) == Some(rs)))
            && (!PersistSucceeds(s) ==> after.state == d.state)
            && (s.DirectorySynced? ==> after.state == Some(File(Encode(c, rs), true)))
  {
    LoadAfterPersist(c, c, rs);
  }
}
