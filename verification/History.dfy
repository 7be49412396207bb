/** The object store as the history of its committed writes, and what every legal history satisfies.
  *
  * A revision is the position of the write that produced it, so every write has a fresh one. */
module History {
  import opened Domain

  type Actor = nat

  datatype Object = Object(doc: Doc, rev: nat)

  /** One committed write or deletion, and the operation that made it. */
  datatype Event =
    | Put(actor: Actor, key: Key, doc: Doc)
    | Del(actor: Actor, key: Key, rev: nat)

  type Log = seq<Event>

  function Lookup(log: Log, key: Key): (found: Option<Object>)
  {
    if log == [] then None
    else
      var last := |log| - 1;
      if log[last].key != key then Lookup(log[..last], key)
      else if log[last].Put? then Some(Object(log[last].doc, |log|))
      else None
  }

  // ---------------------------------------------------------------- steps

  /** Renew rewrites only the heartbeat and the expiry. */
  predicate Renews(old_: WriterLease, new_: WriterLease) {
    && new_ == old_.(heartbeatAt := new_.heartbeatAt, expiresAt := new_.expiresAt)
    && old_.heartbeatAt <= new_.heartbeatAt
  }

  predicate Advances(old_: LatestPointer, new_: LatestPointer) {
    && new_.parent == Some(old_.generation)
    && old_.generation.generation < new_.generation.generation
  }

  predicate RollsBack(old_: LatestPointer, new_: LatestPointer) {
    new_.generation.generation < old_.generation.generation
  }

  predicate ArchiveStored(log: Log, capsule: string, ref: GenerationRef, size: int) {
    var found := Lookup(log, ArchiveKey(capsule, ref));
    found.Some? && found.value.doc == ArchiveDoc(size, ref.sha)
  }

  predicate LeaseStep(log: Log, key: Key, doc: Doc)
    requires key.LeaseKey?
  {
    && doc.LeaseDoc? && ValidLease(doc.lease, key.capsule, key.lineage)
    && var found := Lookup(log, key);
       found.Some? ==>
         && found.value.doc.LeaseDoc?
         && (Renews(found.value.doc.lease, doc.lease) || found.value.doc.lease.expiresAt <= doc.lease.createdAt)
  }

  predicate PointerStep(log: Log, key: Key, doc: Doc)
    requires key.PointerKey?
  {
    && doc.PointerDoc? && ValidPointer(doc.pointer, key.capsule, key.lineage)
    && match Lookup(log, key) {
       case None => key.lineage.IsMain() || doc.pointer.parent.Some?
       case Some(o) => o.doc.PointerDoc? && (Advances(o.doc.pointer, doc.pointer) ||
                                             RollsBack(o.doc.pointer, doc.pointer))
       }
  }

  predicate SidecarStep(log: Log, key: Key, doc: Doc)
    requires key.SidecarKey?
  {
    && doc.MetadataDoc? && ValidMetadata(doc.metadata, key.capsule, key.lineage, key.ref)
    && FullyVerified(doc.metadata)
    && Lookup(log, key).None?
    && ArchiveStored(log, key.capsule, key.ref, doc.metadata.size)
  }

  /** What one write may do to the store: a lease is created, renewed by its owner or taken over once
    * expired; a pointer advances or rolls back; immutable objects are written once; only leases go. */
  predicate Step(log: Log, e: Event) {
    match e
    case Put(_, LeaseKey(_, _), doc) => LeaseStep(log, e.key, doc)
    case Put(_, PointerKey(_, _), doc) => PointerStep(log, e.key, doc)
    case Put(_, ArchiveKey(_, _), doc) => doc.ArchiveDoc? && Lookup(log, e.key).None?
    case Put(_, SidecarKey(_, _, _), doc) => SidecarStep(log, e.key, doc)
    case Del(_, key, rev) => key.LeaseKey? && Lookup(log, key).Some? && Lookup(log, key).value.rev == rev
  }

  predicate StepAt(log: Log, i: nat)
    requires i < |log|
  {
    Step(log[..i], log[i])
  }

  predicate Legal(log: Log) {
    forall i | 0 <= i < |log| :: StepAt(log, i)
  }

  /** The pointer that publishes a generation repeats its metadata field for field. */
  function PointerOf(m: GenerationMetadata): LatestPointer {
    LatestPointer(SCHEMA_VERSION, m.capsule, m.lineage, m.generation, m.parent, m.objectKey, m.size,
                  m.createdAt, m.tools, m.session)
  }

  /** The generation a pointer names is stored: a fully verified sidecar, and the archive it describes. */
  predicate BackedBy(log: Log, p: LatestPointer) {
    && ArchiveStored(log, p.capsule, p.generation, p.size)
    && var sidecar := Lookup(log, SidecarKey(p.capsule, p.lineage, p.generation));
       && sidecar.Some? && sidecar.value.doc.MetadataDoc?
       && FullyVerified(sidecar.value.doc.metadata)
       && PointerOf(sidecar.value.doc.metadata) == p
  }

  predicate BackedAt(log: Log, i: nat)
    requires i < |log|
  {
    log[i].Put? && log[i].key.PointerKey? && log[i].doc.PointerDoc? ==> BackedBy(log[..i], log[i].doc.pointer)
  }

  /** Every pointer ever written was backed when it was written. */
  predicate Backed(log: Log) {
    forall i | 0 <= i < |log| :: BackedAt(log, i)
  }

  // ---------------------------------------------------------------- lookups

  lemma LookupAppend(log: Log, e: Event, key: Key)
    ensures Lookup(log + [e], key) ==
            (if e.key != key then Lookup(log, key)
             else if e.Put? then Some(Object(e.doc, |log| + 1)) else None)
  {
    assert (log + [e])[..|log|] == log;
  }

  /** A found object is the last write to its key. */
  lemma {:induction false} LookupWitness(log: Log, key: Key)
    requires Lookup(log, key).Some?
    ensures var o := Lookup(log, key).value;
            && 1 <= o.rev <= |log|
            && log[o.rev - 1].Put? && log[o.rev - 1].key == key && log[o.rev - 1].doc == o.doc
            && forall i | o.rev <= i < |log| :: log[i].key != key
  {
    var last := |log| - 1;
    if log[last].key != key {
      LookupWitness(log[..last], key);
    }
  }

  /** Whatever last touched a key decides what is found there. */
  lemma {:induction false} LookupLast(log: Log, key: Key, r: nat)
    requires 1 <= r <= |log| && log[r - 1].key == key
    requires forall i | r <= i < |log| :: log[i].key != key
    ensures Lookup(log, key) == (if log[r - 1].Put? then Some(Object(log[r - 1].doc, r)) else None)
  {
    if r < |log| {
      var last := |log| - 1;
      LookupLast(log[..last], key, r);
    }
  }

  lemma {:induction false} LookupNever(log: Log, key: Key)
    requires forall i | 0 <= i < |log| :: log[i].key != key
    ensures Lookup(log, key) == None
  {
    if log != [] { LookupNever(log[..|log| - 1], key); }
  }

  lemma LegalPrefix(log: Log, n: nat)
    requires Legal(log) && n <= |log|
    ensures Legal(log[..n])
  {
    forall i | 0 <= i < n ensures StepAt(log[..n], i) {
      assert StepAt(log, i) && log[..n][..i] == log[..i];
    }
  }

  lemma LegalExtend(log: Log, e: Event)
    requires Legal(log) && Step(log, e)
    ensures Legal(log + [e])
  {
    var longer := log + [e];
    forall i | 0 <= i < |longer| ensures StepAt(longer, i) {
      if i < |log| { assert StepAt(log, i) && longer[..i] == log[..i]; } else { assert longer[..i] == log; }
    }
  }

  lemma BackedPrefix(log: Log, n: nat)
    requires Backed(log) && n <= |log|
    ensures Backed(log[..n])
  {
    forall i | 0 <= i < n ensures BackedAt(log[..n], i) {
      assert BackedAt(log, i) && log[..n][..i] == log[..i];
    }
  }

  lemma BackedExtend(log: Log, e: Event)
    requires Backed(log)
    requires e.Put? && e.key.PointerKey? && e.doc.PointerDoc? ==> BackedBy(log, e.doc.pointer)
    ensures Backed(log + [e])
  {
    var longer := log + [e];
    forall i | 0 <= i < |longer| ensures BackedAt(longer, i) {
      if i < |log| { assert BackedAt(log, i) && longer[..i] == log[..i]; } else { assert longer[..i] == log; }
    }
  }

  /** In a legal history an object found at a key is of that key's kind and valid. */
  lemma LookupTyped(log: Log, key: Key)
    requires Legal(log) && Lookup(log, key).Some?
    ensures var doc := Lookup(log, key).value.doc;
            match key
            case LeaseKey(c, l) => doc.LeaseDoc? && ValidLease(doc.lease, c, l)
            case PointerKey(c, l) => doc.PointerDoc? && ValidPointer(doc.pointer, c, l)
            case ArchiveKey(_, _) => doc.ArchiveDoc?
            case SidecarKey(c, l, r) =>
                doc.MetadataDoc? && ValidMetadata(doc.metadata, c, l, r) && FullyVerified(doc.metadata)
  {
    LookupWitness(log, key);
    var r := Lookup(log, key).value.rev;
    assert StepAt(log, r - 1);
  }

  // ---------------------------------------------------------------- revisions

  /** A revision seen at two instants was in place at every instant between them. */
  lemma RevisionContinuous(log: Log, key: Key, i: nat, m: nat, j: nat)
    requires i <= m <= j <= |log|
    requires Lookup(log[..i], key).Some? && Lookup(log[..j], key).Some?
    requires Lookup(log[..i], key).value.rev == Lookup(log[..j], key).value.rev
    ensures Lookup(log[..m], key) == Lookup(log[..i], key) == Lookup(log[..j], key)
  {
    LookupWitness(log[..i], key);
    LookupWitness(log[..j], key);
    var r := Lookup(log[..i], key).value.rev;
    forall x | r <= x < m ensures log[..m][x].key != key { assert log[..j][x].key != key; }
    LookupLast(log[..m], key, r);
    forall x | r <= x < j ensures log[..j][x].key != key {}
  }

  /** Once replaced or deleted, a revision never comes back. */
  lemma RevisionGone(log: Log, key: Key, rev: nat, i: nat, j: nat)
    requires rev <= i < j <= |log| && log[i].key == key
    ensures Lookup(log[..j], key).Some? ==> Lookup(log[..j], key).value.rev != rev
  {
    if Lookup(log[..j], key).Some? {
      LookupWitness(log[..j], key);
      assert log[..j][i].key == key;
    }
  }

  /** Immutable objects stay as first written, and a pointer, once present, stays present. */
  lemma {:induction false} Persists(log: Log, key: Key, i: nat, j: nat)
    requires Legal(log) && i <= j <= |log| && !key.LeaseKey?
    requires Lookup(log[..i], key).Some?
    ensures Lookup(log[..j], key).Some?
    ensures !key.PointerKey? ==> Lookup(log[..j], key) == Lookup(log[..i], key)
    decreases j - i
  {
    if i < j {
      Persists(log, key, i, j - 1);
      assert StepAt(log, j - 1);
      assert log[..j] == log[..j - 1] + [log[j - 1]];
      LookupAppend(log[..j - 1], log[j - 1], key);
    }
  }

  lemma BackedByPersists(log: Log, p: LatestPointer, i: nat, j: nat)
    requires Legal(log) && i <= j <= |log| && BackedBy(log[..i], p)
    ensures BackedBy(log[..j], p)
  {
    Persists(log, ArchiveKey(p.capsule, p.generation), i, j);
    Persists(log, SidecarKey(p.capsule, p.lineage, p.generation), i, j);
  }

  /** Whenever pointers were only ever written backed, at every instant of the run the generation the
    * live pointer names is stored: verified sidecar, and archive of exactly its size and digest. */
  lemma LivePointersAreBacked(log: Log, n: nat, capsule: string, lineage: Lineage)
    requires Legal(log) && Backed(log) && n <= |log|
    requires Lookup(log[..n], PointerKey(capsule, lineage)).Some?
    ensures var doc := Lookup(log[..n], PointerKey(capsule, lineage)).value.doc;
            doc.PointerDoc? && BackedBy(log[..n], doc.pointer)
  {
    var key := PointerKey(capsule, lineage);
    LegalPrefix(log, n);
    LookupTyped(log[..n], key);
    LookupWitness(log[..n], key);
    var w := Lookup(log[..n], key).value.rev - 1;
    assert log[w] == log[..n][w] && BackedAt(log, w);
    BackedByPersists(log, log[w].doc.pointer, w, n);
  }
}
