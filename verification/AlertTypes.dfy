/** Alerts, the observations they are raised on, and the engine's settings (`alert/mod.rs`). */
module AlertTypes {
  import opened Bytes

  datatype Kind = NewProcessDest | NewProcessEgress | NewGeo | VolumeSpike | IdentityChange

  datatype Severity = Info | Notice | Warning | Critical

  /** An alert row; its id is its place in the table, counted from one. */
  datatype Alert = Alert(kind: Kind, severity: Severity, ts: i64, processId: nat, destId: nat, dedupKey: string)

  datatype SocketProc = SocketProc(pid: nat, name: string, exePath: Option<string>)

  datatype GeoInfo = GeoInfo(country: Option<string>, asn: Option<nat>, asOrg: Option<string>)

  datatype IdentityKind = MacCodesign | Sha256 | Unknown

  datatype IdentityStatus = Valid | Unsigned | AdHoc | Invalid | Unreadable

  datatype Identity = Identity(kind: IdentityKind, value: string, signingId: Option<string>,
                               teamId: Option<string>, status: IdentityStatus)

  /** One correlated flow observation. `domain` is the registrable domain of `name`. */
  datatype Observation = Observation(
    ts: i64, process: Option<SocketProc>, identity: Option<Identity>, destIp: string, name: Option<string>,
    domain: string, geo: GeoInfo, bytesUp: nat, outbound: bool)

  /** What one evaluation answers: the alerts it stored and the rows the observation belongs to. */
  datatype Outcome = Outcome(alerts: seq<Alert>, processId: Option<nat>, destId: nat)

  /** Durations are in milliseconds, as the code casts them. */
  datatype Config = Config(
    learningWindow: i64, interval: i64, alpha: real, zThreshold: real, floor: nat, minSamples: nat,
    cooldown: i64, flagSignedUpdates: bool)
}
