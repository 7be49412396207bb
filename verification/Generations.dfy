/** Immutable generations: the archive first, proven stored, and only then its verified sidecar. */
module Generations {
  import opened Domain
  import opened History
  import opened ObjectStores
  import P = Pointers

  type Error = P.Error

  function Verified(m: GenerationMetadata): GenerationMetadata {
    m.(verified := m.verified.(remoteBytesVerified := true))
  }

  /** What an upload may have written: the archive, the sidecar, both in that order, or neither. */
  predicate Uploaded(publishersOnly: bool, before: Log, after: Log, me: Actor, m: GenerationMetadata) {
    && Grows(false, before, after)
    && (Legal(before) ==> Grows(publishersOnly, before, after))
    && var a := Put(me, m.objectKey, ArchiveDoc(m.size, m.generation.sha));
       var s := Put(me, m.metadataKey, MetadataDoc(Verified(m)));
       var mine := Mine(after, |before|, me);
       mine == [] || mine == [a] || mine == [s] || mine == [a, s]
  }

  lemma UploadNothing(publishersOnly: bool, before: Log, after: Log, me: Actor, m: GenerationMetadata)
    requires OthersGrow(publishersOnly, before, after, me)
    ensures Uploaded(publishersOnly, before, after, me, m) && Mine(after, |before|, me) == []
  {
    P.MineNone(publishersOnly, before, after, me);
  }

  /** Others' writes and then possibly one immutable write of our own. */
  lemma UploadOne(publishersOnly: bool, before: Log, mid: Log, pre: Log, after: Log, me: Actor, e: Event)
    requires Grows(false, before, mid) && (Legal(before) ==> Grows(publishersOnly, before, mid))
    requires OthersGrow(publishersOnly, mid, pre, me)
    requires e.Put? && e.actor == me && !e.key.PointerKey?
    requires after == pre || (after == pre + [e] && (Legal(pre) ==> Step(pre, e)))
    ensures Grows(false, before, after) && (Legal(before) ==> Grows(publishersOnly, before, after))
    ensures Mine(after, |before|, me) == Mine(mid, |before|, me) + (if after == pre then [] else [e])
  {
    MineOthers(mid, pre, |before|, me);
    if after != pre {
      MineAppend(pre, |before|, me, e);
      if Legal(before) {
        LegalExtend(pre, e);
        if publishersOnly && Backed(before) { BackedExtend(pre, e); }
      }
    }
  }

  /** Confirms that the stored archive has the recorded size and digest, reading it back if the backend did
    * not report a digest. */
  method VerifyArchive(store: ObjectStore, me: Actor, m: GenerationMetadata, archive: Object, shaKnown: bool)
    returns (r: Result<(), Error>)
    requires archive.doc.ArchiveDoc? && Lookup(store.log, m.objectKey) == Some(archive)
    modifies store
    ensures OthersGrow(store.publishersOnly, old(store.log), store.log, me)
    ensures r.Ok? ==>
            Lookup(store.log, m.objectKey).Some? &&
            Lookup(store.log, m.objectKey).value.doc == ArchiveDoc(m.size, m.generation.sha)
    ensures store.calm ==>
              store.log == old(store.log) && (r.Ok? <==> archive.doc == ArchiveDoc(m.size, m.generation.sha))
  {
    if archive.doc.size != m.size { return Err(P.Failed); }
    if shaKnown {
      if archive.doc.sha != m.generation.sha { return Err(P.Failed); }
      return Ok(());
    }
    var got := store.Get(me, m.objectKey);
    match got {
      case GetNotFound => return Err(P.NotFound);
      case GetFailed => return Err(P.Failed);
      case Found(o, _) =>
        if o.doc != ArchiveDoc(m.size, m.generation.sha) { return Err(P.Failed); }
        return Ok(());
    }
  }

  /** The write may be made at any instant from `mid` on at which its key is free. */
  predicate Ready(mid: Log, key: Key, doc: Doc) {
    match key
    case ArchiveKey(_, _) => doc.ArchiveDoc?
    case SidecarKey(c, l, r) =>
      doc.MetadataDoc? && ValidMetadata(doc.metadata, c, l, r) && FullyVerified(doc.metadata) &&
          ArchiveStored(mid, c, r, doc.metadata.size)
    case _ => false
  }

  lemma ReadyStep(mid: Log, pre: Log, me: Actor, key: Key, doc: Doc)
    requires Ready(mid, key, doc) && mid <= pre && Legal(pre) && Lookup(pre, key).None?
    ensures Step(pre, Put(me, key, doc))
  {
    if key.SidecarKey? {
      assert pre[..|mid|] == mid && pre[..|pre|] == pre;
      Persists(pre, ArchiveKey(key.capsule, key.ref), |mid|, |pre|);
    }
  }

  lemma BothStored(mid: Log, after: Log, m: GenerationMetadata)
    requires Legal(after) && mid <= after && ValidMetadata(m, m.capsule, m.lineage, m.generation) &&
             m.verified.localHaulLoadable
    requires Lookup(mid, m.objectKey).Some? &&
             Lookup(mid, m.objectKey).value.doc == ArchiveDoc(m.size, m.generation.sha)
    requires Lookup(after, m.metadataKey).Some? && Lookup(after, m.metadataKey).value.doc == MetadataDoc(Verified(m))
    ensures BackedBy(after, PointerOf(m))
  {
    assert after[..|mid|] == mid && after[..|after|] == after;
    Persists(after, m.objectKey, |mid|, |after|);
  }

  /** Nothing else is stored under the key. */
  predicate Free(log: Log, key: Key, doc: Doc) { Lookup(log, key).None? || Lookup(log, key).value.doc == doc }

  /** An immutable put with its ambiguous case settled by a look at the stored object. */
  method PutSettled(store: ObjectStore, me: Actor, key: Key, source: Doc, expected: Doc, ghost before: Log,
                    ghost mid: Log)
    returns (r: Result<(Object, bool), Error>)
    requires mid == store.log && Grows(false, before, mid) &&
             (Legal(before) ==> Grows(store.publishersOnly, before, mid))
    requires Ready(mid, key, expected)
    modifies store
    ensures mid <= store.log && Grows(false, before, store.log) &&
            (Legal(before) ==> Grows(store.publishersOnly, before, store.log))
    ensures Mine(store.log, |before|, me) == Mine(mid, |before|, me) ||
            Mine(store.log, |before|, me) == Mine(mid, |before|, me) + [Put(me, key, expected)]
    ensures r.Ok? ==> Lookup(store.log, key) == Some(r.value.0) && r.value.0.doc == expected
    ensures store.calm && source == expected ==> (r.Ok? <==> Free(old(store.log), key, expected))
    ensures store.calm ==> store.log == old(store.log) || store.log == old(store.log) + [Put(me, key, expected)]
    ensures store.quiet && store.digests && Mine(store.log, |before|, me) != Mine(mid, |before|, me) ==> r.Ok?
  {
    var put, pre := store.PutImmutable(me, key, source, expected);
    ghost var landed := store.log;
    if landed != pre && Legal(pre) { ReadyStep(mid, pre, me, key, expected); }
    UploadOne(store.publishersOnly, before, mid, pre, landed, me, Put(me, key, expected));
    match put {
      case Stored(rev) =>
        var shaKnown: bool := *;
        return Ok((Object(expected, rev), shaKnown));
      case PutConflict => return Err(P.Conflict);
      case PutFailed => return Err(P.Failed);
      case PutAmbiguous =>
        if landed != pre { LookupAppend(pre, Put(me, key, expected), key); }
        var head := store.Get(me, key);
        UploadOne(store.publishersOnly, before, landed, store.log, store.log, me, Put(me, key, expected));
        if head.Found? && head.shaKnown && head.stored.doc == expected { return Ok((head.stored, true)); }
        return Err(P.Ambiguous);
    }
  }

  /** The first half of an upload: the archive is put and proven stored. */
  method PutArchive(store: ObjectStore, me: Actor, m: GenerationMetadata, source: Doc) returns (r: Result<(), Error>)
    requires ValidMetadata(m, m.capsule, m.lineage, m.generation)
    modifies store
    ensures Grows(false, old(store.log), store.log) &&
            (Legal(old(store.log)) ==> Grows(store.publishersOnly, old(store.log), store.log))
    ensures var mine := Mine(store.log, |old(store.log)|, me);
            mine == [] || mine == [Put(me, m.objectKey, ArchiveDoc(m.size, m.generation.sha))]
    ensures r.Ok? ==>
            Lookup(store.log, m.objectKey).Some? &&
            Lookup(store.log, m.objectKey).value.doc == ArchiveDoc(m.size, m.generation.sha)
    ensures var archive := ArchiveDoc(m.size, m.generation.sha);
            store.calm && source == archive ==> (r.Ok? <==> Free(old(store.log), m.objectKey, archive))
    ensures store.calm ==>
              forall key :: key != m.objectKey ==> Lookup(store.log, key) == Lookup(old(store.log), key)
  {
    ghost var before := store.log;
    P.MineNone(store.publishersOnly, before, before, me);
    var archive := ArchiveDoc(m.size, m.generation.sha);
    var put := PutSettled(store, me, m.objectKey, source, archive, before, before);
    if put.Err? { return Err(put.error); }
    ghost var stored := store.log;
    if store.calm && stored != before {
      forall key | key != m.objectKey ensures Lookup(stored, key) == Lookup(before, key) {
        LookupAppend(before, Put(me, m.objectKey, archive), key);
      }
    }
    r := VerifyArchive(store, me, m, put.value.0, put.value.1);
    MineOthers(stored, store.log, |before|, me);
  }

  lemma SidecarUploaded(publishersOnly: bool, before: Log, after: Log, me: Actor, m: GenerationMetadata,
                        mine: seq<Event>)
    requires Grows(false, before, after) && (Legal(before) ==> Grows(publishersOnly, before, after))
    requires mine == [] || mine == [Put(me, m.objectKey, ArchiveDoc(m.size, m.generation.sha))]
    requires Mine(after, |before|, me) == mine ||
             Mine(after, |before|, me) == mine + [Put(me, m.metadataKey, MetadataDoc(Verified(m)))]
    ensures Uploaded(publishersOnly, before, after, me, m)
  {
    var s := Put(me, m.metadataKey, MetadataDoc(Verified(m)));
    assert [] + [s] == [s] && (mine != [] ==> mine + [s] == [mine[0], s]);
  }

  /** The second half: the sidecar, over an archive that is in place. */
  method PutSidecar(store: ObjectStore, me: Actor, m: GenerationMetadata, ghost before: Log)
    returns (r: Result<(), Error>)
    requires ValidMetadata(m, m.capsule, m.lineage, m.generation) && m.verified.localHaulLoadable
    requires Lookup(store.log, m.objectKey).Some? &&
             Lookup(store.log, m.objectKey).value.doc == ArchiveDoc(m.size, m.generation.sha)
    requires Grows(false, before, store.log) && (Legal(before) ==> Grows(store.publishersOnly, before, store.log))
    requires var mine := Mine(store.log, |before|, me);
             mine == [] || mine == [Put(me, m.objectKey, ArchiveDoc(m.size, m.generation.sha))]
    modifies store
    ensures Uploaded(store.publishersOnly, before, store.log, me, m)
    ensures r.Ok? && Legal(before) ==> BackedBy(store.log, PointerOf(m))
    ensures store.calm ==> (r.Ok? <==> Free(old(store.log), m.metadataKey, MetadataDoc(Verified(m))))
    ensures store.calm ==>
              forall key :: key != m.metadataKey ==> Lookup(store.log, key) == Lookup(old(store.log), key)
  {
    ghost var mid := store.log;
    ghost var put := Put(me, m.metadataKey, MetadataDoc(Verified(m)));
    forall key | key != m.metadataKey ensures Lookup(mid + [put], key) == Lookup(mid, key) {
      LookupAppend(mid, put, key);
    }
    var full := MetadataDoc(Verified(m));
    assert Ready(mid, m.metadataKey, full);
    var stored := PutSettled(store, me, m.metadataKey, full, full, before, mid);
    SidecarUploaded(store.publishersOnly, before, store.log, me, m, Mine(mid, |before|, me));
    if stored.Err? { return Err(stored.error); }
    if Legal(before) { BothStored(mid, store.log, m); }
    return Ok(());
  }

  /** A generation that can be uploaded: valid, loadable, and with nothing else in its place. */
  predicate MayUpload(log: Log, m: GenerationMetadata) {
    && ValidMetadata(m, m.capsule, m.lineage, m.generation) && m.verified.localHaulLoadable
    && Free(log, m.objectKey, ArchiveDoc(m.size, m.generation.sha))
    && Free(log, m.metadataKey, MetadataDoc(Verified(m)))
  }

  /** Uploads a generation. Success means that its verified sidecar and the archive it describes are stored. */
  method PutAndVerify(store: ObjectStore, me: Actor, m: GenerationMetadata, source: Doc)
    returns (r: Result<GenerationMetadata, Error>)
    modifies store
    ensures Uploaded(store.publishersOnly, old(store.log), store.log, me, m)
    ensures r.Ok? ==>
            r.value == Verified(m) && FullyVerified(r.value) && ValidMetadata(m, m.capsule, m.lineage, m.generation)
    ensures r.Ok? && Legal(old(store.log)) ==> BackedBy(store.log, PointerOf(m))
    ensures ValidMetadata(m, m.capsule, m.lineage, m.generation) || Mine(store.log, |old(store.log)|, me) == []
    ensures store.calm && source == ArchiveDoc(m.size, m.generation.sha) ==> (r.Ok? <==> MayUpload(old(store.log), m))
    ensures store.calm ==> forall key: Key :: key.PointerKey? ==> Lookup(store.log, key) == Lookup(old(store.log), key)
  {
    ghost var before := store.log;
    UploadNothing(store.publishersOnly, before, before, me, m);
    if !ValidMetadata(m, m.capsule, m.lineage, m.generation) { return Err(P.InvalidDocument); }
    if !m.verified.localHaulLoadable { return Err(P.Failed); }
    var archived := PutArchive(store, me, m, source);
    if archived.Err? { return Err(archived.error); }
    var sidecar := PutSidecar(store, me, m, before);
    if sidecar.Err? { return Err(sidecar.error); }
    return Ok(Verified(m));
  }

  method ReadMetadata(store: ObjectStore, me: Actor, capsule: string, lineage: Lineage, ref: GenerationRef)
    returns (r: Result<GenerationMetadata, Error>)
    modifies store
    ensures OthersGrow(store.publishersOnly, old(store.log), store.log, me)
    ensures r.Ok? ==> ValidMetadata(r.value, capsule, lineage, ref) && FullyVerified(r.value)
    ensures r.Ok? ==> var stored := Lookup(store.log, SidecarKey(capsule, lineage, ref));
                      stored.Some? && stored.value.doc == MetadataDoc(r.value)
    ensures r.Ok? && Legal(store.log) ==> BackedBy(store.log, PointerOf(r.value))
    ensures store.calm ==> store.log == old(store.log)
    ensures store.calm && Legal(store.log) && ValidLineage(capsule, lineage) && ValidRef(ref) ==>
              (r.Ok? <==> Lookup(store.log, SidecarKey(capsule, lineage, ref)).Some?)
    ensures r == Err(P.NotFound) ==> Lookup(store.log, SidecarKey(capsule, lineage, ref)).None?
    ensures !ValidLineage(capsule, lineage) || !ValidRef(ref) ==> r == Err(P.InvalidDocument)
  {
    if !ValidLineage(capsule, lineage) || !ValidRef(ref) { return Err(P.InvalidDocument); }
    var key := SidecarKey(capsule, lineage, ref);
    var got := store.Get(me, key);
    if Legal(store.log) && Lookup(store.log, key).Some? { LookupTyped(store.log, key); }
    match got {
      case GetNotFound => return Err(P.NotFound);
      case GetFailed => return Err(P.Failed);
      case Found(o, _) =>
        if !(o.doc.MetadataDoc? && ValidMetadata(o.doc.metadata, capsule, lineage, ref) &&
             FullyVerified(o.doc.metadata)) {
          return Err(P.InvalidDocument);
        }
        if Legal(store.log) { SidecarsAreBacked(store.log, key); }
        return Ok(o.doc.metadata);
    }
  }

  /** A stored sidecar was only ever written on top of the archive it describes. */
  lemma SidecarsAreBacked(log: Log, key: Key)
    requires Legal(log) && key.SidecarKey? && Lookup(log, key).Some?
    ensures Lookup(log, key).value.doc.MetadataDoc? && BackedBy(log, PointerOf(Lookup(log, key).value.doc.metadata))
  {
    LookupTyped(log, key);
    LookupWitness(log, key);
    var w := Lookup(log, key).value.rev - 1;
    assert StepAt(log, w);
    assert log[..|log|] == log;
    Persists(log, ArchiveKey(key.capsule, key.ref), w, |log|);
  }
}
