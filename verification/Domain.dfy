/** The documents Camp keeps in its object store, and the rules each must satisfy. */
module Domain {

  datatype Option<+T> = None | Some(value: T)

  datatype Result<+T, +E> = Ok(value: T) | Err(error: E)

  const SCHEMA_VERSION: int := 1

  /** Instants count from the zero time; `0` is the zero time itself. */
  type Time = nat

  datatype Lineage = Lineage(branch: string) {
    predicate IsMain() { branch == "main" }
  }

  datatype GenerationRef = GenerationRef(generation: nat, sha: string)

  datatype ToolVersions = ToolVersions(devpod: string, hauler: string)

  const NO_TOOLS := ToolVersions("", "")

  /** What a key string stands for; module Keys shows that the strings keep these apart. */
  datatype Key =
    | PointerKey(capsule: string, lineage: Lineage)
    | LeaseKey(capsule: string, lineage: Lineage)
    | ArchiveKey(capsule: string, ref: GenerationRef)
    | SidecarKey(capsule: string, lineage: Lineage, ref: GenerationRef)

  datatype WriterLease = WriterLease(
    schema: int, capsule: string, lineage: Lineage, session: string, machine: string,
    openedRef: Option<GenerationRef>, createdAt: Time, heartbeatAt: Time, expiresAt: Time)

  datatype LatestPointer = LatestPointer(
    schema: int, capsule: string, lineage: Lineage, generation: GenerationRef,
    parent: Option<GenerationRef>, objectKey: Key, size: int, createdAt: Time,
    tools: ToolVersions, session: string)

  datatype Verification = Verification(localHaulLoadable: bool, remoteBytesVerified: bool)

  datatype GenerationMetadata = GenerationMetadata(
    schema: int, capsule: string, lineage: Lineage, generation: GenerationRef,
    parent: Option<GenerationRef>, objectKey: Key, metadataKey: Key, size: int, createdAt: Time,
    tools: ToolVersions, session: string, verified: Verification)

  /** Stored bytes. An archive is its size and digest; the digest is taken to be injective. */
  datatype Doc =
    | LeaseDoc(lease: WriterLease)
    | PointerDoc(pointer: LatestPointer)
    | MetadataDoc(metadata: GenerationMetadata)
    | ArchiveDoc(size: int, sha: string)

  predicate ValidSegment(s: string) {
    s != "" && s != "." && s != ".." && forall i | 0 <= i < |s| :: s[i] !in ['/', '\\', '\0']
  }

  predicate LowerHex(c: char) { '0' <= c <= '9' || 'a' <= c <= 'f' }

  predicate ValidRef(r: GenerationRef) {
    r.generation != 0 && |r.sha| == 64 && forall i | 0 <= i < 64 :: LowerHex(r.sha[i])
  }

  predicate ValidParent(child: GenerationRef, parent: Option<GenerationRef>) {
    parent.Some? ==> ValidRef(parent.value) && parent.value.generation < child.generation
  }

  predicate ValidLineage(capsule: string, lineage: Lineage) {
    ValidSegment(capsule) && ValidSegment(lineage.branch)
  }

  predicate ValidLease(l: WriterLease, capsule: string, lineage: Lineage) {
    && l.schema == SCHEMA_VERSION && l.capsule == capsule && l.lineage == lineage
    && ValidLineage(capsule, lineage)
    && l.session != "" && l.machine != "" && l.createdAt != 0
    && l.createdAt <= l.heartbeatAt < l.expiresAt
    && (l.openedRef.Some? ==> ValidRef(l.openedRef.value))
  }

  predicate ValidPointer(p: LatestPointer, capsule: string, lineage: Lineage) {
    && p.schema == SCHEMA_VERSION && p.capsule == capsule && p.lineage == lineage
    && ValidLineage(capsule, lineage)
    && ValidRef(p.generation) && ValidParent(p.generation, p.parent)
    && p.objectKey == ArchiveKey(capsule, p.generation)
    && p.size >= 0 && p.createdAt != 0 && p.session != ""
  }

  predicate ValidMetadata(m: GenerationMetadata, capsule: string, lineage: Lineage, ref: GenerationRef) {
    && m.schema == SCHEMA_VERSION && m.capsule == capsule && m.lineage == lineage && m.generation == ref
    && ValidRef(m.generation) && ValidParent(m.generation, m.parent)
    && ValidLineage(capsule, lineage)
    && m.objectKey == ArchiveKey(capsule, ref) && m.metadataKey == SidecarKey(capsule, lineage, ref)
    && m.size >= 0 && m.createdAt != 0 && m.session != ""
  }

  predicate FullyVerified(m: GenerationMetadata) {
    m.verified.localHaulLoadable && m.verified.remoteBytesVerified
  }
}
