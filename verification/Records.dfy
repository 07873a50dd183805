/** The records activations, leases and ledgers are made of. */
module Records {

  datatype Option<+T> = None | Some(value: T)

  datatype Result<+T> = Ok(value: T) | Err(kind: Kind)

  datatype Kind =
    | SourceAuthDenied | PermissionCompileFailed | DeniedNeighbor | WildcardOverreach
    | LeaseRevoked | LeaseExpired | StaleChain
    | CursorFailure | LeaseAcquireFailed | LoopSuppressed | StaleCursor | WriteConflict | ReplayCursorFailed
    | ScheduleConfigInvalid | ScheduleLeaseMissing | ScheduleLeaseLost | ScheduleTickDuplicate
    | ClockInvalid | CatchUpFailed | RestartRecoveryFailed | SourceMalformed

  datatype SourcePrincipal = SourcePrincipal(
    principalID: string, sourceID: string, sourceKind: string, authorityRef: string)

  datatype SourceLease = SourceLease(
    leaseID: string, leaseStatus: string, appRevision: string, schemaVersion: string, scriptRevision: int)

  datatype Source = Source(
    kind: string, activationName: string, subject: string, requestID: string, commandID: string,
    pattern: string, observedSubject: string, messageID: string,
    bucket: string, key: string, revision: int, resume: string,
    name: string, objectMetaSequence: int, watchPosition: string,
    stream: string, consumer: string, streamSequence: int, consumerSequence: int, deliveryAttempt: int,
    scheduleID: string, tickID: string, dueAt: string, ownerPrincipalID: string, leaderEpoch: int,
    fencingToken: string, acquiredAt: string, expiresAt: string, clockID: string, clock: string)

  datatype Chain = Chain(chainID: string, hop: int, maxHops: int)

  datatype Provenance = Provenance(appRevision: string, schemaVersion: string)

  datatype Activation = Activation(
    activationID: string, dedupeKey: string, scriptKey: string, scriptRevision: int,
    sourcePrincipal: SourcePrincipal, sourceLease: SourceLease, source: Source, chain: Chain,
    provenance: Provenance)

  datatype Lease = Lease(id: string, status: string)

  datatype RecordStatus = Accepted | Duplicate | Suppressed

  datatype LedgerRecord = LedgerRecord(
    activationID: string, dedupeKey: string, sourceID: string, sourceKind: string,
    sourcePrincipalID: string, sourceLeaseID: string, sourcePosition: int, sourceCursor: string,
    replayCursor: string, chainID: string, status: RecordStatus)

  datatype PermList = PermList(allow: seq<string>, deny: seq<string>)

  datatype Import = Import(kind: string, subjects: seq<string>)

  datatype Exposure = Exposure(kind: string, subject: string)

  datatype Capability = Capability(principalID: string, leaseID: string, leaseStatus: string)

  /** Imports are listed in the order the range over them happens to visit. */
  datatype Auth = Auth(
    user: string, capability: Capability, publish: PermList, subscribe: PermList,
    maxResponses: int, responsesExpireMs: int,
    imports: seq<Import>, exports: seq<string>, exposure: map<string, Exposure>)

  /** How many of the turns in `order` are `who`'s. */
  function Turns(order: seq<bool>, who: bool): nat {
    if order == [] then 0 else Turns(order[..|order| - 1], who) + if order[|order| - 1] == who then 1 else 0
  }
}
