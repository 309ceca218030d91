/**
 * The device registry of droidrun-gui (droidrun_gui/device_manager.py): the ids `adb devices` lists, the
 * registry of known devices kept across runs, and the parsing of battery and storage reports.
 *
 * Each adb call is replaced by what it printed, with `None` where the call raised; the JSON file
 * the registry is saved to, and the Qt signals, are recorded only as far as the registry contents
 * and the ids announced.
 */
module DeviceManagement {
  import opened Wrappers
  import opened Text

  /** One registry entry. */
  datatype DeviceInfo = DeviceInfo(name: string, model: string, status: string)

  // ---------------------------------------------------------------------------------------------
  // `adb devices`
  // ---------------------------------------------------------------------------------------------

  /** Everything after the "List of devices attached" header line. */
  function ListingLines(stdout: string): seq<string> {
    Split(stdout, '\n')[1..]
  }

  /** A non-blank line that mentions "device". */
  predicate IsDeviceLine(line: string) {
    Strip(line) != "" && Contains(line, "device")
  }

  /** The id is the text before the first tab. */
  function DeviceIdOf(line: string): string {
    Split(line, '\t')[0]
  }

  /** The id a line contributes: one for a device line, none otherwise. */
  function LineIds(line: string): seq<string> {
    if IsDeviceLine(line) then [DeviceIdOf(line)] else []
  }

  /** The ids of the device lines, in order (duplicates kept). */
  function DeviceIds(lines: seq<string>): seq<string>
    decreases |lines|
  {
    if lines == [] then []
    else
      var line := lines[|lines| - 1];
      DeviceIds(lines[..|lines| - 1]) + LineIds(line)
  }

  /** `_get_device_name` and `_get_device_model`: adb's stripped output, or a fallback if adb raised. */
  function PropertyOr(output: Option<string>, fallback: string): string {
    match output case Some(out) => Strip(out) case None => fallback
  }

  /** The entry a newly seen device gets. */
  function NewDeviceInfo(nameOutput: Option<string>, modelOutput: Option<string>): DeviceInfo {
    DeviceInfo(PropertyOr(nameOutput, "Unknown Device"), PropertyOr(modelOutput, "Unknown Model"), "connected")
  }

  /** The registry after seeing `ids`: ids already present are left alone, the others are added. */
  function Register(
    devices: map<string, DeviceInfo>, ids: seq<string>,
    nameOutput: string -> Option<string>, modelOutput: string -> Option<string>): (r: map<string, DeviceInfo>)
    ensures devices.Keys <= r.Keys
    decreases |ids|
  {
    if ids == [] then devices
    else
      var id := ids[|ids| - 1];
      var before := Register(devices, ids[..|ids| - 1], nameOutput, modelOutput);
      if id in before then before else before[id := NewDeviceInfo(nameOutput(id), modelOutput(id))]
  }

  /** The ids announced as connected: each id new to the registry, once, in order of first sight. */
  function NewIds(devices: map<string, DeviceInfo>, ids: seq<string>): (r: seq<string>)
    ensures forall id :: id in r ==> id in ids && id !in devices
    decreases |ids|
  {
    if ids == [] then []
    else
      var id := ids[|ids| - 1];
      var before := NewIds(devices, ids[..|ids| - 1]);
      if id in devices || id in before then before else before + [id]
  }

  /**
   * After seeing `ids` the registry holds exactly the old ids and the new ones; old entries are
   * untouched and each new one is "connected" with the name and model adb reported.
   */
  lemma {:induction false} RegisterSpec(
    devices: map<string, DeviceInfo>, ids: seq<string>,
    nameOutput: string -> Option<string>, modelOutput: string -> Option<string>)
    ensures Register(devices, ids, nameOutput, modelOutput).Keys == devices.Keys + set i | i in ids
    ensures forall id :: id in devices ==> Register(devices, ids, nameOutput, modelOutput)[id] == devices[id]
    ensures forall id :: id in ids && id !in devices ==>
      Register(devices, ids, nameOutput, modelOutput)[id] == NewDeviceInfo(nameOutput(id), modelOutput(id))
    decreases |ids|
  {
    if ids != [] {
      var init := ids[..|ids| - 1];
      RegisterSpec(devices, init, nameOutput, modelOutput);
      assert ids == init + [ids[|ids| - 1]];
    }
  }

  /** The announced ids are exactly the listed ids that were not registered, each once. */
  lemma {:induction false} NewIdsSpec(devices: map<string, DeviceInfo>, ids: seq<string>)
    ensures forall id :: id in NewIds(devices, ids) <==> id in ids && id !in devices
    ensures forall i, j :: 0 <= i < j < |NewIds(devices, ids)| ==> NewIds(devices, ids)[i] != NewIds(devices, ids)[j]
    decreases |ids|
  {
    if ids != [] {
      var init := ids[..|ids| - 1];
      NewIdsSpec(devices, init);
      assert ids == init + [ids[|ids| - 1]];
    }
  }

  /** An id is registered after seeing `ids` exactly when it was registered before or was announced. */
  lemma {:induction false} RegisteredOrAnnounced(
    devices: map<string, DeviceInfo>, ids: seq<string>,
    nameOutput: string -> Option<string>, modelOutput: string -> Option<string>, x: string)
    ensures x in Register(devices, ids, nameOutput, modelOutput) <==> x in devices || x in NewIds(devices, ids)
    decreases |ids|
  {
    if ids != [] {
      RegisteredOrAnnounced(devices, ids[..|ids| - 1], nameOutput, modelOutput, x);
      RegisteredOrAnnounced(devices, ids[..|ids| - 1], nameOutput, modelOutput, ids[|ids| - 1]);
    }
  }

  /** One more listed id: a registered id changes nothing, any other is registered and announced. */
  lemma RegisterStep(
    devices: map<string, DeviceInfo>, ids: seq<string>, id: string,
    nameOutput: string -> Option<string>, modelOutput: string -> Option<string>)
    ensures var before := Register(devices, ids, nameOutput, modelOutput);
      && (id in before <==> id in devices || id in NewIds(devices, ids))
      && Register(devices, ids + [id], nameOutput, modelOutput)
           == (if id in before then before else before[id := NewDeviceInfo(nameOutput(id), modelOutput(id))])
      && NewIds(devices, ids + [id]) == (if id in before then NewIds(devices, ids) else NewIds(devices, ids) + [id])
  {
    RegisterSnoc(devices, ids, id, nameOutput, modelOutput);
    RegisteredOrAnnounced(devices, ids, nameOutput, modelOutput, id);
  }

  lemma RegisterSnoc(
    devices: map<string, DeviceInfo>, ids: seq<string>, id: string,
    nameOutput: string -> Option<string>, modelOutput: string -> Option<string>)
    ensures var before := Register(devices, ids, nameOutput, modelOutput);
      Register(devices, ids + [id], nameOutput, modelOutput)
        == if id in before then before else before[id := NewDeviceInfo(nameOutput(id), modelOutput(id))]
    ensures var before := NewIds(devices, ids);
      NewIds(devices, ids + [id]) == if id in devices || id in before then before else before + [id]
  {
    assert (ids + [id])[..|ids|] == ids;
  }

  /** What the listing loop has gathered: the ids seen, the registry, and the ids announced. */
  datatype Scanned = Scanned(ids: seq<string>, devices: map<string, DeviceInfo>, announced: seq<string>)

  /** One line of the listing loop: a device line's id is recorded, and registered and announced if new. */
  function ScanLine(
    s: Scanned, line: string, nameOutput: string -> Option<string>, modelOutput: string -> Option<string>): Scanned
  {
    if !IsDeviceLine(line) then s
    else
      var id := DeviceIdOf(line);
      if id in s.devices then Scanned(s.ids + [id], s.devices, s.announced)
      else Scanned(s.ids + [id], s.devices[id := NewDeviceInfo(nameOutput(id), modelOutput(id))], s.announced + [id])
  }

  /** A step taken from any point gathers what the same step gathers from scratch. */
  lemma ScanLineFrom(
    s: Scanned, line: string, nameOutput: string -> Option<string>, modelOutput: string -> Option<string>)
    ensures var step := ScanLine(Scanned([], s.devices, []), line, nameOutput, modelOutput);
      ScanLine(s, line, nameOutput, modelOutput)
        == Scanned(s.ids + step.ids, step.devices, s.announced + step.announced)
  {
    if IsDeviceLine(line) {
      var id := DeviceIdOf(line);
      if id in s.devices {
        assert s.announced + [] == s.announced;
      } else {
        assert [] + [id] == [id];
      }
    } else {
      assert s.ids + [] == s.ids && s.announced + [] == s.announced;
    }
  }

  /** The listing loop over `lines`, line by line, from the registry `known`. */
  function Scan(
    known: map<string, DeviceInfo>, lines: seq<string>,
    nameOutput: string -> Option<string>, modelOutput: string -> Option<string>): Scanned
    decreases |lines|
  {
    if lines == [] then Scanned([], known, [])
    else ScanLine(Scan(known, lines[..|lines| - 1], nameOutput, modelOutput), lines[|lines| - 1], nameOutput, modelOutput)
  }

  /** The loop gathers the listed ids, the registry `Register` gives and the ids `NewIds` gives. */
  lemma {:induction false} ScanSpec(
    known: map<string, DeviceInfo>, lines: seq<string>,
    nameOutput: string -> Option<string>, modelOutput: string -> Option<string>)
    ensures var ids := DeviceIds(lines);
      Scan(known, lines, nameOutput, modelOutput)
        == Scanned(ids, Register(known, ids, nameOutput, modelOutput), NewIds(known, ids))
    decreases |lines|
  {
    if lines != [] {
      var init := lines[..|lines| - 1];
      var line := lines[|lines| - 1];
      var ids := DeviceIds(init);
      ScanSpec(known, init, nameOutput, modelOutput);
      var sofar := Scanned(ids, Register(known, ids, nameOutput, modelOutput), NewIds(known, ids));
      assert Scan(known, lines, nameOutput, modelOutput) == ScanLine(sofar, line, nameOutput, modelOutput);
      assert lines == init + [line];
      DeviceIdsSnoc(init, line);
      if IsDeviceLine(line) {
        var id := DeviceIdOf(line);
        assert DeviceIds(lines) == ids + [id];
        RegisterStep(known, ids, id, nameOutput, modelOutput);
      } else {
        assert DeviceIds(lines) == ids;
      }
    }
  }

  const ListingHeader: string := "List of devices attached"

  /** The row adb prints for a ready device. */
  function DeviceRow(id: string): string {
    id + "\tdevice"
  }

  function DeviceRows(ids: seq<string>): seq<string> {
    seq(|ids|, k requires 0 <= k < |ids| => DeviceRow(ids[k]))
  }

  /** What `adb devices` prints for these ready devices. */
  function Listing(ids: seq<string>): string {
    Join([ListingHeader] + DeviceRows(ids), "\n")
  }

  predicate PlainId(id: string) {
    '\t' !in id && '\n' !in id
  }

  lemma DeviceRowMentionsDevice(id: string)
    ensures Contains(DeviceRow(id), "device")
  {
    ContainsWithin(id + "\t", "device", "");
    assert id + "\t" + "device" + "" == DeviceRow(id);
  }

  lemma DeviceRowId(id: string)
    requires PlainId(id)
    ensures DeviceIdOf(DeviceRow(id)) == id
  {
    var row := DeviceRow(id);
    assert row[|id|] == '\t';
    assert forall j :: 0 <= j < |id| ==> row[j] == id[j];
    assert IndexOf(row, '\t') == |id|;
    assert row[..|id|] == id;
  }

  /** The row of a ready device is a device line, and its id is read back. */
  lemma DeviceRowParses(id: string)
    requires PlainId(id)
    ensures IsDeviceLine(DeviceRow(id)) && DeviceIdOf(DeviceRow(id)) == id
  {
    DeviceRowMentionsDevice(id);
    StripNonBlank(DeviceRow(id), |DeviceRow(id)| - 1);
    DeviceRowId(id);
  }

  lemma DeviceIdsSnoc(lines: seq<string>, line: string)
    ensures DeviceIds(lines + [line]) == DeviceIds(lines) + LineIds(line)
  {
    assert (lines + [line])[..|lines|] == lines;
  }

  lemma {:induction false} DeviceIdsOfRows(ids: seq<string>)
    requires forall k :: 0 <= k < |ids| ==> PlainId(ids[k])
    ensures DeviceIds(DeviceRows(ids)) == ids
    decreases |ids|
  {
    if ids != [] {
      var init := ids[..|ids| - 1];
      var id := ids[|ids| - 1];
      assert ids == init + [id];
      assert forall k :: 0 <= k < |init| ==> PlainId(init[k]) by {
        forall k | 0 <= k < |init| ensures PlainId(init[k]) {
          assert init[k] == ids[k];
        }
      }
      DeviceIdsOfRows(init);
      DeviceRowsSnoc(init, id);
      DeviceIdsSnoc(DeviceRows(init), DeviceRow(id));
      DeviceRowParses(id);
      assert LineIds(DeviceRow(id)) == [id];
    }
  }

  lemma DeviceRowsSnoc(ids: seq<string>, id: string)
    ensures DeviceRows(ids + [id]) == DeviceRows(ids) + [DeviceRow(id)]
  {
  }

  /** Reading back a listing of ready devices gives their ids, in order. */
  lemma ListingParses(ids: seq<string>)
    requires forall k :: 0 <= k < |ids| ==> PlainId(ids[k])
    ensures DeviceIds(ListingLines(Listing(ids))) == ids
  {
    var parts := [ListingHeader] + DeviceRows(ids);
    forall k | 0 <= k < |parts| ensures '\n' !in parts[k] {
      if k > 0 {
        assert parts[k] == DeviceRow(ids[k - 1]);
      }
    }
    SplitJoin(parts, '\n');
    assert parts[1..] == DeviceRows(ids);
    DeviceIdsOfRows(ids);
  }

  // ---------------------------------------------------------------------------------------------
  // Battery, storage and connection reports
  // ---------------------------------------------------------------------------------------------

  /** `int(line.split(':')[1].strip())`; None where that raises. */
  function LevelOfLine(line: string): Option<int> {
    var parts := Split(line, ':');
    if |parts| < 2 then None else ParseInt(Strip(parts[1]))
  }

  /** The position of the first line that mentions "level", or the number of lines if none does. */
  function FirstLevelLine(lines: seq<string>): (k: nat)
    ensures k <= |lines|
    ensures k < |lines| ==> Contains(lines[k], "level")
    ensures forall j :: 0 <= j < k ==> !Contains(lines[j], "level")
    decreases |lines|
  {
    if lines == [] then 0
    else if Contains(lines[0], "level") then 0
    else 1 + FirstLevelLine(lines[1..])
  }

  /** The value on the first line that mentions "level"; None if there is none or it does not parse. */
  function BatteryLevelOf(lines: seq<string>): (r: Option<int>)
    ensures r.Some? ==> exists k :: 0 <= k < |lines| && Contains(lines[k], "level") && LevelOfLine(lines[k]) == r
    ensures (forall k :: 0 <= k < |lines| ==> !Contains(lines[k], "level")) ==> r.None?
  {
    var k := FirstLevelLine(lines);
    if k == |lines| then None else LevelOfLine(lines[k])
  }

  /** `get_device_battery` given what `dumpsys battery` printed (None: adb raised). */
  method BatteryLevel(stdout: Option<string>) returns (level: Option<int>)
    ensures stdout.None? ==> level.None?
    ensures stdout.Some? ==> level == BatteryLevelOf(Split(stdout.value, '\n'))
  {
    if stdout.None? {
      return None;
    }
    var lines := Split(stdout.value, '\n');
    var i := 0;
    while i < |lines|
      invariant 0 <= i <= |lines|
      invariant forall j :: 0 <= j < i ==> !Contains(lines[j], "level")
    {
      if Contains(lines[i], "level") {
        assert FirstLevelLine(lines) == i;
        var parts := Split(lines[i], ':');
        if |parts| < 2 {
          return None;
        }
        return ParseInt(Strip(parts[1]));
      }
      i := i + 1;
    }
    assert FirstLevelLine(lines) == |lines|;
    return None;
  }

  /** The level line `dumpsys battery` prints reads back as its value. */
  lemma LevelLineParses(n: int)
    ensures Contains("  level: " + IntToString(n), "level")
    ensures LevelOfLine("  level: " + IntToString(n)) == Some(n)
  {
    var v := IntToString(n);
    LevelLineMentionsLevel(v);
    LevelLineSplits(n);
    assert Split("  level: " + v, ':')[1] == " " + v;
    StripAfterSpace(v);
    ParseIntToString(n);
  }

  lemma LevelLineMentionsLevel(v: string)
    ensures Contains("  level: " + v, "level")
  {
    ContainsWithin("  ", "level", ": " + v);
    assert "  " + "level" + (": " + v) == "  level: " + v;
  }

  lemma LevelLineSplits(n: int)
    ensures Split("  level: " + IntToString(n), ':') == ["  level", " " + IntToString(n)]
  {
    var v := IntToString(n);
    IntToStringHasNo(n, ':');
    SplitJoin(["  level", " " + v], ':');
    assert Join(["  level", " " + v], ":") == "  level: " + v;
  }

  /** Only the first line mentioning "level" counts, whatever follows it. */
  lemma BatteryUsesFirstLevelLine(before: seq<string>, line: string, after: seq<string>)
    requires forall k :: 0 <= k < |before| ==> !Contains(before[k], "level")
    requires Contains(line, "level")
    ensures BatteryLevelOf(before + [line] + after) == LevelOfLine(line)
  {
    var lines := before + [line] + after;
    assert lines[|before|] == line;
    assert forall j :: 0 <= j < |before| ==> lines[j] == before[j];
    FirstLevelLineAt(lines, |before|);
  }

  /** The first "level" line is the one with none before it. */
  lemma FirstLevelLineAt(lines: seq<string>, k: nat)
    requires k < |lines| && Contains(lines[k], "level")
    requires forall j :: 0 <= j < k ==> !Contains(lines[j], "level")
    ensures FirstLevelLine(lines) == k
  {
    var f := FirstLevelLine(lines);
    assert f <= k;
  }

  datatype Storage = Storage(total: int, used: int, free: int)

  /** `get_device_storage` given what `df /data` printed: fields 1, 2 and 3 of the second line. */
  function ParseStorage(stdout: string): (r: Option<Storage>)
    ensures r.Some? <==>
      var lines := Split(Strip(stdout), '\n');
      && |lines| >= 2 && |SplitWhitespace(lines[1])| >= 4
      && ParseInt(SplitWhitespace(lines[1])[1]).Some?
      && ParseInt(SplitWhitespace(lines[1])[2]).Some?
      && ParseInt(SplitWhitespace(lines[1])[3]).Some?
    ensures r.Some? ==>
      var lines := Split(Strip(stdout), '\n');
      && |lines| >= 2 && |SplitWhitespace(lines[1])| >= 4
      && ParseInt(SplitWhitespace(lines[1])[1]) == Some(r.value.total)
      && ParseInt(SplitWhitespace(lines[1])[2]) == Some(r.value.used)
      && ParseInt(SplitWhitespace(lines[1])[3]) == Some(r.value.free)
  {
    var lines := Split(Strip(stdout), '\n');
    if |lines| < 2 then None
    else
      var parts := SplitWhitespace(lines[1]);
      if |parts| < 4 then None
      else
        match (ParseInt(parts[1]), ParseInt(parts[2]), ParseInt(parts[3]))
        case (Some(total), Some(used), Some(free)) => Some(Storage(total, used, free))
        case _ => None
  }

  /** The one-line df report for a filesystem: name, size, used and available. */
  function StorageRow(fs: string, s: Storage): string {
    Join([fs, IntToString(s.total), IntToString(s.used), IntToString(s.free)], " ")
  }

  /** The decimal text of an integer is one word. */
  lemma IntTextIsWord(n: int)
    ensures IntToString(n) != [] && NoSpace(IntToString(n))
  {
    var text := IntToString(n);
    forall j | 0 <= j < |text| ensures !IsSpace(text[j]) {
      if IsSpace(text[j]) {
        IntToStringHasNo(n, text[j]);
      }
    }
  }

  /** A df report whose second line is a storage row reads back as that row's figures. */
  lemma ParseStorageRow(header: string, fs: string, s: Storage)
    requires s.total >= 0 && s.used >= 0 && s.free >= 0
    requires header != [] && !IsSpace(header[0]) && '\n' !in header
    requires fs != [] && NoSpace(fs)
    ensures ParseStorage(header + "\n" + StorageRow(fs, s)) == Some(s)
  {
    var row := StorageRow(fs, s);
    StorageRowWords(fs, s);
    StorageLines(header, row);
    var parts := SplitWhitespace(row);
    assert Split(Strip(header + "\n" + row), '\n')[1] == row;
    ParseIntToString(s.total);
    ParseIntToString(s.used);
    ParseIntToString(s.free);
    assert ParseInt(parts[1]) == Some(s.total);
    assert ParseInt(parts[2]) == Some(s.used);
    assert ParseInt(parts[3]) == Some(s.free);
  }

  /** A df row splits into its four words, holds no line break and ends in a non-space. */
  lemma StorageRowWords(fs: string, s: Storage)
    requires s.total >= 0 && s.used >= 0 && s.free >= 0
    requires fs != [] && NoSpace(fs)
    ensures var row := StorageRow(fs, s);
      && SplitWhitespace(row) == [fs, IntToString(s.total), IntToString(s.used), IntToString(s.free)]
      && row != [] && '\n' !in row && !IsSpace(row[|row| - 1])
  {
    var words := [fs, IntToString(s.total), IntToString(s.used), IntToString(s.free)];
    IntTextIsWord(s.total);
    IntTextIsWord(s.used);
    IntTextIsWord(s.free);
    var row := StorageRow(fs, s);
    SplitWhitespaceJoin(words);
    assert '\n' !in row by {
      forall k | 0 <= k < |row| ensures row[k] != '\n' {
        WordsJoinHasNoNewline(words, k);
      }
    }
    JoinLastChar(words, " ");
  }

  /** The report's lines, once stripped, are its header and its row. */
  lemma StorageLines(header: string, row: string)
    requires header != [] && !IsSpace(header[0]) && '\n' !in header
    requires row != [] && '\n' !in row && !IsSpace(row[|row| - 1])
    ensures Split(Strip(header + "\n" + row), '\n') == [header, row]
  {
    var text := header + "\n" + row;
    assert text[|text| - 1] == row[|row| - 1];
    StripUnchanged(text);
    SplitJoin([header, row], '\n');
    assert Join([header, row], "\n") == text;
  }


  lemma {:induction false} WordsJoinHasNoNewline(words: seq<string>, k: int)
    requires forall i :: 0 <= i < |words| ==> NoSpace(words[i])
    requires 0 <= k < |Join(words, " ")|
    ensures Join(words, " ")[k] != '\n'
    decreases |words|
  {
    if |words| > 1 {
      var rest := Join(words[1..], " ");
      assert Join(words, " ") == words[0] + " " + rest;
      if k > |words[0]| {
        WordsJoinHasNoNewline(words[1..], k - |words[0]| - 1);
      }
    }
  }

  /** `connect_device`: adb's reply mentions "connected", in any case; False if adb raised. */
  function ConnectSucceeded(stdout: Option<string>): (ok: bool)
    ensures ok ==> stdout.Some? && |stdout.value| >= |"connected"|
  {
    stdout.Some? && Contains(Lower(stdout.value), "connected")
  }

  /** Nine characters of `reply` from position `i` spell "connected" in some letter case. */
  predicate ConnectedAt(reply: string, i: int) {
    0 <= i && i + 9 <= |reply| && Lower(reply[i..i + 9]) == "connected"
  }

  /** A connect succeeds exactly when the reply says "connected" somewhere, in any letter case. */
  lemma ConnectSucceededIff(reply: string)
    ensures ConnectSucceeded(Some(reply)) <==> exists i :: ConnectedAt(reply, i)
  {
    var lower := Lower(reply);
    ContainsOccurs(lower, "connected");
    forall i ensures OccursAt(lower, "connected", i) <==> ConnectedAt(reply, i) {
      if 0 <= i && i + 9 <= |reply| {
        assert lower[i..i + 9] == Lower(reply[i..i + 9]);
      }
    }
  }

  /** adb's reply to a successful connect is recognised, whatever the case of the address. */
  lemma ConnectReplyAccepted(address: string)
    ensures ConnectSucceeded(Some("connected to " + address))
  {
    var reply := "connected to " + address;
    assert reply[0..9] == "connected";
    LowerUnchanged("connected");
    assert ConnectedAt(reply, 0);
    ConnectSucceededIff(reply);
  }

  // ---------------------------------------------------------------------------------------------
  // The registry
  // ---------------------------------------------------------------------------------------------

  class DeviceManager {
    /** Device id to entry; what devices.json holds after every save. */
    var devices: map<string, DeviceInfo>
    /** The ids `device_connected` was emitted for, in order. */
    var connectedSignals: seq<string>
    /** The ids `device_disconnected` was emitted for, in order. */
    var disconnectedSignals: seq<string>

    /** Starts from the saved registry, or an empty one when there is no file. */
    constructor (saved: Option<map<string, DeviceInfo>>)
      ensures devices == saved.GetOr(map[])
      ensures connectedSignals == [] && disconnectedSignals == []
    {
      devices := saved.GetOr(map[]);
      connectedSignals := [];
      disconnectedSignals := [];
    }

    /**
     * `get_connected_devices` given what `adb devices` printed (None: adb raised, which returns no
     * ids and changes nothing) and what the name and model queries print for each id.
     */
    method GetConnectedDevices(
      listing: Option<string>, nameOutput: string -> Option<string>, modelOutput: string -> Option<string>)
      returns (ids: seq<string>)
      modifies this
      ensures listing.None? ==> ids == [] && devices == old(devices) && connectedSignals == old(connectedSignals)
      ensures listing.Some? ==> ids == DeviceIds(ListingLines(listing.value))
      ensures listing.Some? ==> devices == Register(old(devices), ids, nameOutput, modelOutput)
      ensures listing.Some? ==> connectedSignals == old(connectedSignals) + NewIds(old(devices), ids)
      ensures disconnectedSignals == old(disconnectedSignals)
    {
      if listing.None? {
        return [];
      }
      var lines := ListingLines(listing.value);
      ghost var known := devices;
      ids := [];
      for i := 0 to |lines|
        invariant ids == Scan(known, lines[..i], nameOutput, modelOutput).ids
        invariant devices == Scan(known, lines[..i], nameOutput, modelOutput).devices
        invariant connectedSignals == old(connectedSignals) + Scan(known, lines[..i], nameOutput, modelOutput).announced
        invariant disconnectedSignals == old(disconnectedSignals)
      {
        var line := lines[i];
        ghost var sofar := Scan(known, lines[..i], nameOutput, modelOutput);
        ghost var signals := connectedSignals;
        assert lines[..i + 1][..i] == lines[..i];
        ScanLineFrom(sofar, line, nameOutput, modelOutput);
        var seen := ObserveLine(line, nameOutput, modelOutput);
        ids := ids + seen;
        ghost var step := ScanLine(Scanned([], sofar.devices, []), line, nameOutput, modelOutput);
        assert connectedSignals == old(connectedSignals) + (sofar.announced + step.announced);
      }
      ScanSpec(known, lines, nameOutput, modelOutput);
      assert lines[..|lines|] == lines;
    }

    /** One line of the listing: the id of a device line is observed; other lines change nothing. */
    method ObserveLine(line: string, nameOutput: string -> Option<string>, modelOutput: string -> Option<string>)
      returns (seen: seq<string>)
      modifies this
      ensures var step := ScanLine(Scanned([], old(devices), []), line, nameOutput, modelOutput);
        && seen == step.ids
        && devices == step.devices
        && connectedSignals == old(connectedSignals) + step.announced
      ensures disconnectedSignals == old(disconnectedSignals)
    {
      if IsDeviceLine(line) {
        var id := DeviceIdOf(line);
        Observe(id, nameOutput, modelOutput);
        seen := [id];
      } else {
        seen := [];
      }
    }

    /** One listed id: an unknown device is registered and announced; a known one is left alone. */
    method Observe(id: string, nameOutput: string -> Option<string>, modelOutput: string -> Option<string>)
      modifies this
      ensures id in old(devices) ==> devices == old(devices) && connectedSignals == old(connectedSignals)
      ensures id !in old(devices) ==>
        && devices == old(devices)[id := NewDeviceInfo(nameOutput(id), modelOutput(id))]
        && connectedSignals == old(connectedSignals) + [id]
      ensures disconnectedSignals == old(disconnectedSignals)
    {
      if id !in devices {
        devices := devices[id := NewDeviceInfo(nameOutput(id), modelOutput(id))];
        connectedSignals := connectedSignals + [id];
      }
    }

    /** `get_device_info`: the entry for a registered id. */
    function GetDeviceInfo(id: string): (r: Option<DeviceInfo>)
      reads this
      ensures r.Some? <==> id in devices
      ensures r.Some? ==> r.value == devices[id]
    {
      if id in devices then Some(devices[id]) else None
    }

    /**
     * `disconnect_device`: unless adb raised, the id leaves the registry (with a signal when it
     * was there) and the answer is True, registered or not.
     */
    method DisconnectDevice(id: string, adbRaised: bool) returns (ok: bool)
      modifies this
      ensures ok == !adbRaised
      ensures adbRaised ==> devices == old(devices) && disconnectedSignals == old(disconnectedSignals)
      ensures !adbRaised ==> devices == old(devices) - {id}
      ensures !adbRaised ==>
        disconnectedSignals == old(disconnectedSignals) + (if id in old(devices) then [id] else [])
      ensures connectedSignals == old(connectedSignals)
    {
      if adbRaised {
        return false;
      }
      if id in devices {
        devices := devices - {id};
        disconnectedSignals := disconnectedSignals + [id];
      }
      return true;
    }
  }

  /** A listed id is registered afterwards, and a disconnected one is not. */
  method ConnectThenDisconnect(m: DeviceManager, id: string)
    requires PlainId(id)
    modifies m
    ensures m.GetDeviceInfo(id).None?
  {
    ListingParses([id]);
    var ids := m.GetConnectedDevices(Some(Listing([id])), _ => None, _ => None);
    assert ids == [id];
    RegisterSpec(old(m.devices), ids, _ => None, _ => None);
    assert m.GetDeviceInfo(id).Some?;
    var ok := m.DisconnectDevice(id, false);
  }
}
