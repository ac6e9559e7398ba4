/** The parts of a compose file that planning reads. */
module ComposeSchema {
  import opened Common
  import opened Utf16Order

  datatype Condition = ServiceStarted | ServiceHealthy | ServiceCompletedSuccessfully

  /** `depends_on`: absent, a list of names (duplicates allowed), or a map from name to condition. */
  datatype DependsOn = Empty | List(names: seq<string>) | Map(entries: seq<(string, Condition)>)

  datatype MountSpec = Short(text: string) | Long(mountType: string, source: Option<string>)

  datatype Service = Service(
    dependsOn: DependsOn,
    build: Option<string>,
    image: Option<string>,
    networks: seq<string>,
    volumes: seq<MountSpec>,
    profiles: seq<string>)

  /** A `BTreeMap` keyed by name: its entries, in ascending key order. */
  type Table<T> = seq<(string, T)>

  ghost predicate IsTable<T>(t: Table<T>) {
    forall i, j :: 0 <= i < j < |t| ==> CodePointLess(t[i].0, t[j].0)
  }

  predicate HasKey<T(!new)>(t: Table<T>, key: string) {
    exists i :: 0 <= i < |t| && t[i].0 == key
  }

  lemma TableKeysDistinct<T>(t: Table<T>, i: nat, j: nat)
    requires IsTable(t) && i < |t| && j < |t| && t[i].0 == t[j].0
    ensures i == j
  {
    if i < j {
      CodePointLessTotal(t[i].0, t[j].0);
    } else if j < i {
      CodePointLessTotal(t[j].0, t[i].0);
    }
  }

  datatype Compose = Compose(
    project: Option<string>,
    services: Table<Service>,
    networks: Table<Option<string>>,
    volumes: Table<Option<string>>)

  /** The maps of a parsed file are maps. */
  ghost predicate Parsed(c: Compose) {
    && IsTable(c.services) && IsTable(c.networks) && IsTable(c.volumes)
    && forall i :: 0 <= i < |c.services| && c.services[i].1.dependsOn.Map? ==> IsTable(c.services[i].1.dependsOn.entries)
  }
}
