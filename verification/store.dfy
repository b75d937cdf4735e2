/**
  `load` and `store`: named JSON records under `~/.cubox`, with the
  first-use bootstrap of `config` and `data`. The file system is an
  abstract `Disk`: whether a home directory exists, and the records
  present, by name.
 */
module Store {
  import opened Wrappers
  import opened Usage

  /** `UserCfg`, the contents of `config.json`. */
  datatype UserCfg = UserCfg(apiKey: Option<string>)

  /** A parsed record file: a configuration or a set of counters. */
  datatype Record = CfgRecord(cfg: UserCfg) | DataRecord(data: UserData)

  datatype Disk = Disk(hasHome: bool, files: map<string, Record>)

  /** Why `load` or `store` reports an error: no home directory, or a record with no default. */
  datatype StoreError = NoHome | NoDefault(name: string)

  const ConfigName := "config"
  const DataName := "data"

  /** The record written on first use of `name`; only `config` and `data` have one. */
  function Default(name: string): (r: Option<Record>)
    ensures r.Some? <==> name == ConfigName || name == DataName
    ensures name == ConfigName ==> r == Some(CfgRecord(UserCfg(None)))
    ensures name == DataName ==> r == Some(DataRecord(Fresh))
  {
    if name == ConfigName then Some(CfgRecord(UserCfg(None)))
    else if name == DataName then Some(DataRecord(Fresh))
    else None
  }

  /** Replaces the file `name` wholesale by `rec`. */
  function Write(disk: Disk, name: string, rec: Record): Disk
  {
    disk.(files := disk.files[name := rec])
  }

  /** `store`: fails only without a home directory; otherwise `name` now holds `rec` and nothing else changed. */
  function Save(disk: Disk, name: string, rec: Record): (r: Result<Disk, StoreError>)
    ensures r.Failure? <==> !disk.hasHome
    ensures r.Failure? ==> r.error == NoHome
    ensures r.Success? ==> r.value.hasHome && r.value.files.Keys == disk.files.Keys + {name}
    ensures r.Success? ==> r.value.files[name] == rec
    ensures r.Success? ==> forall n :: n in disk.files && n != name ==> r.value.files[n] == disk.files[n]
  {
    if !disk.hasHome then Failure(NoHome) else Success(Write(disk, name, rec))
  }

  /**
    `load`: the record stored under `name`, together with the disk after
    the call. A missing `config` or `data` is created with its default
    and returned; any other missing name is an error, as is a missing
    home directory. A present record is returned and nothing is written.
   */
  function Load(disk: Disk, name: string): (r: Result<(Record, Disk), StoreError>)
    ensures !disk.hasHome ==> r == Failure(NoHome)
    ensures disk.hasHome && name in disk.files ==> r == Success((disk.files[name], disk))
    ensures disk.hasHome && name !in disk.files ==> (r.Success? <==> Default(name).Some?)
    ensures disk.hasHome && name !in disk.files && r.Success? ==> r.value.0 == Default(name).value
    ensures disk.hasHome && name !in disk.files && Default(name).None? ==> r == Failure(NoDefault(name))
    ensures r.Success? ==> r.value.1.hasHome && r.value.1.files.Keys == disk.files.Keys + {name}
    ensures r.Success? ==> r.value.1.files[name] == r.value.0
    ensures r.Success? ==> forall n :: n in disk.files ==> r.value.1.files[n] == disk.files[n]
  {
    if !disk.hasHome then Failure(NoHome)
    else if name in disk.files then Success((disk.files[name], disk))
    else
      match Default(name)
      case None => Failure(NoDefault(name))
      case Some(rec) => Success((rec, Write(disk, name, rec)))
  }

  /** A second `load` right after the first returns the same record and writes nothing. */
  lemma LoadTwice(disk: Disk, name: string)
    requires Load(disk, name).Success?
    ensures Load(Load(disk, name).value.1, name) == Load(disk, name)
  {
  }

  /** What `store` wrote, `load` reads back unchanged. */
  lemma SaveThenLoad(disk: Disk, name: string, rec: Record)
    requires Save(disk, name, rec).Success?
    ensures Load(Save(disk, name, rec).value, name) == Success((rec, Save(disk, name, rec).value))
  {
  }

  /** First use: `config` comes back without an API key, `data` with no date and zero counts. */
  lemma Bootstrap(disk: Disk)
    requires disk.hasHome
    ensures ConfigName !in disk.files ==>
              Load(disk, ConfigName).Success? && Load(disk, ConfigName).value.0 == CfgRecord(UserCfg(None))
    ensures DataName !in disk.files ==>
              Load(disk, DataName).Success? && Load(disk, DataName).value.0 == DataRecord(UserData(None, 0, 0))
  {
  }
}
