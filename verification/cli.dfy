/**
  `handle_options` and `check_response`: which option wins, what each
  does to the stored records, and how a server reply updates the
  counters. Output text is left to the caller; an `unwrap` that would
  panic in the source is the outcome `Panic` here.
 */
module Cli {
  import opened Wrappers
  import opened CommandLine
  import opened Usage
  import opened Store

  /** The options `-v`, `-h`, `-c` and `-k [KEY]`, already parsed. */
  datatype Flags = Flags(version: bool, help: bool, count: bool, apiKey: FlagOpt)

  datatype OptionError = StoreKeyFailed | ExpectApiKey

  /**
    What `handle_options` decided. `Continue` is its `Ok(false)`: no
    option handled, go on to build a request; `Fail` is its `Err`; the
    others are its `Ok(true)`.
   */
  datatype Action =
    | ShowVersion
    | ShowHelp
    | ShowCount(countToday: nat, countTotal: nat)
    | KeySet
    | Fail(error: OptionError)
    | Panic
    | Continue

  /** Can the counters be loaded: a home directory, and no record of the wrong shape under `data`? */
  predicate DataReadable(disk: Disk)
  {
    disk.hasHome && (DataName in disk.files ==> disk.files[DataName].DataRecord?)
  }

  /** Is any option that `handle_options` acts on present? `-k` counts with or without a value. */
  predicate AnyOption(f: Flags)
  {
    f.version || f.help || f.count || !f.apiKey.Absent?
  }

  /**
    `handle_options`. The options are tried in the order `-v`, `-h`, `-c`,
    `-k`, and the first one present decides. `-c` shows the counters as of
    `today` without writing them back; `-k KEY` replaces the whole
    configuration by one holding just `KEY`.
   */
  function HandleOptions(f: Flags, disk: Disk, today: Date): (r: (Action, Disk))
    ensures r.0 == Continue <==> !AnyOption(f)
    ensures r.1.hasHome == disk.hasHome
    ensures f.version ==> r == (ShowVersion, disk)
    ensures !f.version && f.help ==> r == (ShowHelp, disk)
    ensures r.0.ShowCount? <==> !f.version && !f.help && f.count && DataReadable(disk)
    ensures r.0.ShowCount? && DataName in disk.files ==>
              (r.0.countToday, r.0.countTotal) == DisplayCounts(disk.files[DataName].data, today)
    ensures r.0.ShowCount? && DataName !in disk.files ==> r.0 == ShowCount(0, 0)
    ensures r.0 == Panic <==> !f.version && !f.help && f.count && !DataReadable(disk)
    ensures r.0 == Fail(ExpectApiKey) <==> !f.version && !f.help && !f.count && f.apiKey.NoValue?
    ensures r.0 == Fail(StoreKeyFailed) <==>
              !f.version && !f.help && !f.count && f.apiKey.Value? && !disk.hasHome
    ensures r.0 == KeySet <==> !f.version && !f.help && !f.count && f.apiKey.Value? && disk.hasHome
    ensures r.0 == KeySet ==> r.1.files == disk.files[ConfigName := CfgRecord(UserCfg(Some(f.apiKey.value)))]
    ensures r.0 != KeySet ==> forall n :: n in disk.files ==> n in r.1.files && r.1.files[n] == disk.files[n]
    ensures r.0 == Continue || r.0.Fail? || r.0 == Panic ==> r.1 == disk
    ensures r.0.ShowCount? ==>
              r.1.files == (if DataName in disk.files then disk.files else disk.files[DataName := DataRecord(Fresh)])
  {
    if f.version then (ShowVersion, disk)
    else if f.help then (ShowHelp, disk)
    else if f.count then
      match Load(disk, DataName)
      case Success((DataRecord(d), disk')) =>
        var shown := DisplayCounts(d, today);
        (ShowCount(shown.0, shown.1), disk')
      case _ => (Panic, disk)
    else
      match f.apiKey
      case Value(key) =>
        (match Save(disk, ConfigName, CfgRecord(UserCfg(Some(key))))
         case Success(disk') => (KeySet, disk')
         case Failure(_) => (Fail(StoreKeyFailed), disk))
      case NoValue => (Fail(ExpectApiKey), disk)
      case Absent => (Continue, disk)
  }

  /**
    Two sets of options that agree on the first option present, in the
    order `-v`, `-h`, `-c`, `-k`, and on everything before it, are handled
    alike: an option after the first present one is ignored.
   */
  lemma Precedence(f: Flags, g: Flags, disk: Disk, today: Date)
    requires f.version == g.version
    requires !f.version ==> f.help == g.help
    requires !f.version && !f.help ==> f.count == g.count
    requires !f.version && !f.help && !f.count ==> f.apiKey == g.apiKey
    ensures HandleOptions(f, disk, today) == HandleOptions(g, disk, today)
  {
  }

  /** The reply of the save endpoint. */
  datatype Response = Response(message: string, code: int)

  datatype SaveOutcome = Saved | SaveFailed(message: string) | SavePanic

  /** The counters on disk, or the first-use counters when there are none. */
  function StoredData(disk: Disk): UserData
  {
    if DataName in disk.files && disk.files[DataName].DataRecord? then disk.files[DataName].data else Fresh
  }

  /**
    `check_response`. A reply with code 200 counts one save on `today` and
    stores the counters; any other code reports the server's message and
    writes nothing.
   */
  function CheckResponse(resp: Response, disk: Disk, today: Date): (r: (SaveOutcome, Disk))
    ensures resp.code != 200 ==> r == (SaveFailed(resp.message), disk)
    ensures r.1.hasHome == disk.hasHome
    ensures r.0 == Saved <==> resp.code == 200 && DataReadable(disk)
    ensures r.0 == Saved ==> r.1.files == disk.files[DataName := DataRecord(RecordSuccess(StoredData(disk), today))]
    ensures resp.code == 200 && !DataReadable(disk) ==> r.0 == SavePanic
    ensures r.0 != Saved ==> r.1 == disk
  {
    if resp.code == 200 then
      match Load(disk, DataName)
      case Success((DataRecord(d), disk')) =>
        (match Save(disk', DataName, DataRecord(RecordSuccess(d, today)))
         case Success(disk'') => (Saved, disk'')
         case Failure(_) => (SavePanic, disk))
      case _ => (SavePanic, disk)
    else (SaveFailed(resp.message), disk)
  }

  /** After `-k KEY`, loading the configuration gives back exactly `KEY`; the counters are untouched. */
  lemma SetKeyThenLoad(f: Flags, disk: Disk, today: Date)
    requires HandleOptions(f, disk, today).0 == KeySet
    ensures Load(HandleOptions(f, disk, today).1, ConfigName).Success?
    ensures Load(HandleOptions(f, disk, today).1, ConfigName).value.0 == CfgRecord(UserCfg(Some(f.apiKey.value)))
    ensures DataName in disk.files ==> HandleOptions(f, disk, today).1.files[DataName] == disk.files[DataName]
  {
    var disk' := HandleOptions(f, disk, today).1;
    assert disk'.hasHome;
  }

  /**
    A save accepted on `today`, followed by `-c` on the same day, shows one
    more save today and in total than `-c` showed before it.
   */
  lemma CountAfterSave(resp: Response, disk: Disk, today: Date)
    requires CheckResponse(resp, disk, today).0 == Saved
    ensures
      var before := HandleOptions(Flags(false, false, true, Absent), disk, today).0;
      var after := HandleOptions(Flags(false, false, true, Absent), CheckResponse(resp, disk, today).1, today).0;
      before.ShowCount? && after == ShowCount(before.countToday + 1, before.countTotal + 1)
  {
    var d := StoredData(disk);
    DisplayAfterRecord(d, today);
    var disk' := CheckResponse(resp, disk, today).1;
    assert disk'.hasHome;
    assert disk'.files[DataName] == DataRecord(RecordSuccess(d, today));
  }
}
