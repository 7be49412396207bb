/** The two-document commit of the checkpoint builder: `images.json` and `hauler-manifest.yaml` change
  * together, whatever step an interruption hits. */
module ContentTransaction {
  import opened Domain

  /** The identity of a pair is a hash over both bodies, taken to be injective. */
  datatype Id = Id(images: string, manifest: string)

  datatype Name =
    | Images
    | Manifest
    | Staged(final: Name, id: Id)
    | LegacyPartial(final: Name)
    | MarkerFile
    | MarkerNew

  datatype TxDocument = TxDocument(final: Name, staged: Name, sha: Digest)

  datatype Transaction = Transaction(schema: int, id: Id, documents: seq<TxDocument>)

  /** What a file holds: a document, a decodable marker, or a marker cut short. */
  datatype Content = Body(bytes: string) | Marker(tx: Transaction) | TornMarker

  /** An injective digest. */
  datatype Digest = Sha(content: Content)

  type Files = map<Name, Content>

  datatype Pair = Pair(images: Option<Content>, manifest: Option<Content>)

  function At(files: Files, name: Name): Option<Content> { if name in files then Some(files[name]) else None }

  function Finals(files: Files): Pair { Pair(At(files, Images), At(files, Manifest)) }

  function NewPair(images: string, manifest: string): Pair { Pair(Some(Body(images)), Some(Body(manifest))) }

  function TxFor(images: string, manifest: string): Transaction {
    var id := Id(images, manifest);
    Transaction(SCHEMA_VERSION, id, [TxDocument(Images, Staged(Images, id), Sha(Body(images))),
                                     TxDocument(Manifest, Staged(Manifest, id), Sha(Body(manifest)))])
  }

  predicate Matches(files: Files, name: Name, sha: Digest) { name in files && Sha(files[name]) == sha }

  predicate Available(files: Files, d: TxDocument) { Matches(files, d.final, d.sha) || Matches(files, d.staged, d.sha) }

  /** While a marker is present, the new bytes of each document are under its final or its staged name. */
  predicate Recoverable(files: Files) {
    MarkerFile in files ==>
      && files[MarkerFile].Marker?
      && var tx := files[MarkerFile].tx;
         tx == TxFor(tx.id.images, tx.id.manifest) && Available(files, tx.documents[0]) &&
             Available(files, tx.documents[1])
  }

  /** The pair the directory stands for: the one a marker announces, or the one in place. */
  function Logical(files: Files): Pair
    requires Recoverable(files)
  {
    if MarkerFile in files then NewPair(files[MarkerFile].tx.id.images, files[MarkerFile].tx.id.manifest)
    else Finals(files)
  }

  class Directory {
    /** A reliable directory never fails a call that could succeed. */
    const reliable: bool
    var files: Files

    constructor (reliable: bool, files: Files)
      ensures this.reliable == reliable && this.files == files
    {
      this.reliable := reliable;
      this.files := files;
    }

    method Fault() returns (fault: bool, after: bool)
      ensures reliable ==> !fault
    {
      fault, after := *, *;
      if reliable { fault := false; }
    }

    method Rename(from: Name, to: Name) returns (ok: bool)
      modifies this
      ensures files == old(files) || (from in old(files) && files == (old(files) - {from})[to := old(files)[from]])
      ensures ok ==> from in old(files) && files == (old(files) - {from})[to := old(files)[from]]
      ensures reliable && from in old(files) ==> ok
    {
      var fault, after := Fault();
      if from !in files || (fault && !after) { return false; }
      files := (files - {from})[to := files[from]];
      return !fault;
    }

    method Remove(name: Name) returns (ok: bool)
      modifies this
      ensures files == old(files) || files == old(files) - {name}
      ensures ok ==> name in old(files) && files == old(files) - {name}
      ensures reliable && name in old(files) ==> ok
    {
      var fault, after := Fault();
      if name !in files || (fault && !after) { return false; }
      files := files - {name};
      return !fault;
    }

    method RemoveIfPresent(name: Name) returns (ok: bool)
      modifies this
      ensures files == old(files) || files == old(files) - {name}
      ensures ok ==> files == old(files) - {name}
      ensures reliable ==> ok
    {
      if name !in files { return true; }
      ok := Remove(name);
    }

    /** Creates a file; interrupted, it may leave nothing, a beginning, or everything. */
    method WriteExclusive(name: Name, content: Content) returns (ok: bool)
      modifies this
      ensures name in old(files) ==> files == old(files) && !ok
      ensures files == old(files) || (name !in old(files) && name in files && files == old(files)[name := files[name]])
      ensures ok ==> files == old(files)[name := content]
      ensures reliable && name !in old(files) ==> ok
    {
      if name in files { return false; }
      var fault, after := Fault();
      if fault && !after { return false; }
      var torn: Content := *;
      files := files[name := if fault then torn else content];
      return !fault;
    }

    /** A file that cannot be read does not match. */
    method FileMatches(name: Name, sha: Digest) returns (same: bool)
      ensures same ==> Matches(files, name, sha)
      ensures reliable ==> same == Matches(files, name, sha)
    {
      var fault, _ := Fault();
      return !fault && Matches(files, name, sha);
    }
  }

  predicate ValidTx(tx: Transaction) {
    && tx.schema == SCHEMA_VERSION && |tx.documents| == 2
    && (forall i | 0 <= i < 2 ::
          tx.documents[i].final in {Images, Manifest} && tx.documents[i].staged == Staged(tx.documents[i].final, tx.id))
    && tx.documents[0].final != tx.documents[1].final
  }

  /** The validation loop accepts exactly the transactions over each document once. */
  method Validate(tx: Transaction) returns (ok: bool)
    ensures ok == ValidTx(tx)
  {
    if tx.schema != SCHEMA_VERSION || |tx.documents| != 2 { return false; }
    var want := map[Images := false, Manifest := false];
    for i := 0 to |tx.documents|
      invariant want.Keys == {Images, Manifest}
      invariant forall n | n in want :: want[n] <==> exists k | 0 <= k < i :: tx.documents[k].final == n
      invariant forall k | 0 <= k < i ::
                  tx.documents[k].final in want && tx.documents[k].staged == Staged(tx.documents[k].final, tx.id)
      invariant forall k, j | 0 <= k < j < i :: tx.documents[k].final != tx.documents[j].final
    {
      var d := tx.documents[i];
      if d.final !in want || want[d.final] || d.staged != Staged(d.final, tx.id) { return false; }
      want := want[d.final := true];
    }
    return true;
  }

  /** Every document's bytes are at its name. */
  predicate InPlace(files: Files, tx: Transaction) {
    forall i | 0 <= i < |tx.documents| :: Matches(files, tx.documents[i].final, tx.documents[i].sha)
  }

  method Verify(dir: Directory, tx: Transaction) returns (ok: bool)
    ensures ok ==> ValidTx(tx) && InPlace(dir.files, tx)
    ensures dir.reliable && ValidTx(tx) && InPlace(dir.files, tx) ==> ok
  {
    var valid := Validate(tx);
    if !valid { return false; }
    for i := 0 to |tx.documents|
      invariant forall k | 0 <= k < i :: Matches(dir.files, tx.documents[k].final, tx.documents[k].sha)
    {
      var same := dir.FileMatches(tx.documents[i].final, tx.documents[i].sha);
      if !same { return false; }
    }
    return true;
  }

  /** A pending transaction: the marker and both documents' bytes, with the first `n` already in place. */
  predicate Pending(files: Files, tx: Transaction, n: nat)
    requires |tx.documents| == 2
  {
    && At(files, MarkerFile) == Some(Marker(tx))
    && forall i | 0 <= i < 2 ::
         if i < n then Matches(files, tx.documents[i].final, tx.documents[i].sha) else Available(files, tx.documents[i])
  }

  /** The files outside a transaction's own names are left alone. */
  ghost predicate Untouched(before: Files, after: Files, tx: Transaction) {
    forall n | n !in {Images, Manifest, MarkerFile, Staged(Images, tx.id), Staged(Manifest, tx.id)} ::
      At(after, n) == At(before, n)
  }

  /** Puts one document's bytes in place. */
  method Place(dir: Directory, tx: Transaction, i: nat, recovering: bool) returns (ok: bool)
    requires i < 2 && tx == TxFor(tx.id.images, tx.id.manifest) && Pending(dir.files, tx, i)
    requires !recovering ==>
             Matches(dir.files, tx.documents[i].staged, tx.documents[i].sha) &&
             (i == 0 ==> Matches(dir.files, tx.documents[1].staged, tx.documents[1].sha))
    modifies dir
    ensures Pending(dir.files, tx, if ok then i + 1 else i) && Untouched(old(dir.files), dir.files, tx)
    ensures dir.reliable ==> ok
    ensures !recovering && i == 0 ==> Matches(dir.files, tx.documents[1].staged, tx.documents[1].sha)
  {
    var d := tx.documents[i];
    if recovering {
      var placed := dir.FileMatches(d.final, d.sha);
      if placed {
        var _ := dir.RemoveIfPresent(d.staged);
        return true;
      }
      var staged := dir.FileMatches(d.staged, d.sha);
      if !staged { return false; }
    }
    ok := dir.Rename(d.staged, d.final);
  }

  /** The steps after the marker, shared by a commit and a recovery: place both documents, verify, and
    * remove the marker. */
  method Finish(dir: Directory, tx: Transaction, recovering: bool) returns (ok: bool)
    requires tx == TxFor(tx.id.images, tx.id.manifest) && Pending(dir.files, tx, 0)
    requires !recovering ==>
             Matches(dir.files, tx.documents[0].staged, tx.documents[0].sha) &&
             Matches(dir.files, tx.documents[1].staged, tx.documents[1].sha)
    modifies dir
    ensures Recoverable(dir.files) && Logical(dir.files) == NewPair(tx.id.images, tx.id.manifest) &&
            Untouched(old(dir.files), dir.files, tx)
    ensures ok ==> MarkerFile !in dir.files
    ensures dir.reliable ==> ok
  {
    ok := Place(dir, tx, 0, recovering);
    if !ok { return; }
    ok := Place(dir, tx, 1, recovering);
    if !ok { return; }
    ok := Verify(dir, tx);
    if !ok { return; }
    ok := dir.Remove(MarkerFile);
  }

  /** Recovery, interrupted or not, keeps what the directory stands for; completed, it has put exactly that
    * pair in place. */
  method Recover(dir: Directory) returns (ok: bool)
    requires Recoverable(dir.files)
    modifies dir
    ensures Recoverable(dir.files) && Logical(dir.files) == Logical(old(dir.files))
    ensures ok ==> MarkerFile !in dir.files && Finals(dir.files) == Logical(old(dir.files))
    ensures dir.reliable ==> ok
    ensures MarkerFile !in old(dir.files) ==> dir.files == old(dir.files)
    ensures MarkerFile in old(dir.files) ==> Untouched(old(dir.files), dir.files, old(dir.files)[MarkerFile].tx)
  {
    if MarkerFile !in dir.files { return true; }
    var fault, _ := dir.Fault();
    if fault { return false; }
    var tx := dir.files[MarkerFile].tx;
    var valid := Validate(tx);
    if !valid { return false; }
    ok := Finish(dir, tx, true);
  }

  /** Recoveries interrupted any number of times and then one that completes end in exactly the announced
    * pair. */
  method RecoverRepeatedly(dir: Directory, attempts: nat) returns (ok: bool)
    requires Recoverable(dir.files)
    modifies dir
    ensures Recoverable(dir.files) && Logical(dir.files) == Logical(old(dir.files))
    ensures ok ==> MarkerFile !in dir.files && Finals(dir.files) == Logical(old(dir.files))
    ensures dir.reliable && attempts > 0 ==> ok
  {
    ok := false;
    for k := 0 to attempts
      invariant Recoverable(dir.files) && Logical(dir.files) == Logical(old(dir.files))
      invariant ok ==> MarkerFile !in dir.files && Finals(dir.files) == Logical(old(dir.files))
      invariant dir.reliable && k > 0 ==> ok
    {
      ok := Recover(dir);
    }
  }

  method DocumentsMatch(dir: Directory, images: string, manifest: string) returns (same: bool)
    ensures same ==> Finals(dir.files) == NewPair(images, manifest)
    ensures dir.reliable ==> same == (Finals(dir.files) == NewPair(images, manifest))
  {
    same := dir.FileMatches(Images, Sha(Body(images)));
    if same { same := dir.FileMatches(Manifest, Sha(Body(manifest))); }
  }

  /** The leftovers of an interrupted earlier attempt on which exclusive creation stumbles. */
  predicate Clear(files: Files, id: Id) {
    Staged(Images, id) !in files && Staged(Manifest, id) !in files && MarkerNew !in files
  }

  /** Writes both staged documents and the marker. Until the last rename nothing changes; from it on, the
    * new pair is what the directory stands for. */
  method Stage(dir: Directory, images: string, manifest: string) returns (ok: bool)
    requires MarkerFile !in dir.files
    modifies dir
    ensures var tx := TxFor(images, manifest);
            if At(dir.files, MarkerFile) == Some(Marker(tx))
            then Pending(dir.files, tx, 0) && Matches(dir.files, tx.documents[0].staged, tx.documents[0].sha) &&
                Matches(dir.files, tx.documents[1].staged, tx.documents[1].sha)
            else MarkerFile !in dir.files
    ensures Finals(dir.files) == Finals(old(dir.files))
    ensures ok ==> At(dir.files, MarkerFile) == Some(Marker(TxFor(images, manifest)))
    ensures dir.reliable ==> ok == Clear(old(dir.files), Id(images, manifest))
    ensures forall n: Name :: n.LegacyPartial? ==> At(dir.files, n) == At(old(dir.files), n)
  {
    var tx := TxFor(images, manifest);
    ok := dir.WriteExclusive(Staged(Images, tx.id), Body(images));
    if !ok { return; }
    ok := dir.WriteExclusive(Staged(Manifest, tx.id), Body(manifest));
    if !ok { return; }
    ok := dir.WriteExclusive(MarkerNew, Marker(tx));
    if !ok { return; }
    ok := dir.Rename(MarkerNew, MarkerFile);
  }

  /** Commits a pair. Interrupted anywhere, the directory stands for the old pair or for the new one, so
    * with no marker present the two files are together one or the other; completed, they are the new pair.
    * On a reliable directory it completes exactly when the pair is in place already or no leftover of an
    * attempt at the same pair, and no unrenamed marker, is in the way. */
  method Commit(dir: Directory, images: string, manifest: string) returns (ok: bool)
    requires Recoverable(dir.files)
    modifies dir
    ensures Recoverable(dir.files)
    ensures Logical(dir.files) == Logical(old(dir.files)) || Logical(dir.files) == NewPair(images, manifest)
    ensures MarkerFile !in dir.files ==> Finals(dir.files) in {Logical(old(dir.files)), NewPair(images, manifest)}
    ensures ok ==> MarkerFile !in dir.files && Finals(dir.files) == NewPair(images, manifest)
    ensures ok ==> At(dir.files, LegacyPartial(Images)).None? && At(dir.files, LegacyPartial(Manifest)).None?
    ensures dir.reliable ==> (ok <==>
                              Logical(old(dir.files)) == NewPair(images, manifest) ||
                              Clear(old(dir.files), Id(images, manifest)))
  {
    ok := Recover(dir);
    if !ok { return; }
    ghost var id, recovered := Id(images, manifest), dir.files;
    assert Logical(old(dir.files)) != NewPair(images, manifest) ==>
        At(recovered, MarkerNew) == At(old(dir.files), MarkerNew) &&
            At(recovered, Staged(Images, id)) == At(old(dir.files), Staged(Images, id))
        && At(recovered, Staged(Manifest, id)) == At(old(dir.files), Staged(Manifest, id));
    ok := dir.RemoveIfPresent(LegacyPartial(Images));
    if !ok { return; }
    ok := dir.RemoveIfPresent(LegacyPartial(Manifest));
    if !ok { return; }
    var same := DocumentsMatch(dir, images, manifest);
    if same { return true; }
    ok := Stage(dir, images, manifest);
    if !ok { return; }
    ok := Finish(dir, TxFor(images, manifest), false);
  }
}
