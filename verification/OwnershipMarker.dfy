/** Publication of the ownership marker: write a temporary, link it to its final name, unlink the temporary.
  *
  * A directory maps names to inodes, and an inode counts its links. At every step the process may fail, which runs
  * its deferred cleanup, or stop for good. A calm run meets neither. */
module OwnershipMarker {
  import opened Domain
  import opened OwnershipRemoval

  /** The bytes of a file: the canonical encoding of a marker, or anything else. */
  datatype Body = Encoded(marker: Marker) | OtherBytes

  datatype Inode = Inode(regular: bool, private: bool, links: nat, body: Body)

  datatype Halt = Go | Fail | Crash

  datatype Result = Done | Error | Crashed

  const FINAL := "ownership.json"

  function Temporary(token: string): (name: string)
    ensures name != FINAL
  {
    var name := ".ownership-" + token + ".tmp";
    assert name[0] == '.' && FINAL[0] == 'o';
    name
  }

  /** The inode is a private regular file with this many links that holds exactly the marker. */
  predicate Holds(inode: Inode, want: Marker, links: nat) {
    inode.regular && inode.private && inode.links == links && inode.body == Encoded(want)
  }

  class Directory {
    var names: map<string, nat>
    var inodes: map<nat, Inode>
    var next: nat

    ghost predicate Valid()
      reads this
    {
      (forall n :: n in names ==> names[n] in inodes) && (forall i :: i in inodes ==> i < next)
    }

    predicate Named(name: string, want: Marker, links: nat)
      reads this
    {
      name in names && names[name] in inodes && Holds(inodes[names[name]], want, links)
    }

    // The stages of a publication.

    predicate Clean(token: string)
      reads this
    {
      Temporary(token) !in names && FINAL !in names
    }

    predicate Staged(m: Marker)
      reads this
    {
      FINAL !in names && Named(Temporary(m.token), m, 1)
    }

    predicate Linked(m: Marker)
      reads this
    {
      Named(Temporary(m.token), m, 2) && Named(FINAL, m, 2) && names[FINAL] == names[Temporary(m.token)]
    }

    predicate Published(m: Marker)
      reads this
    {
      Temporary(m.token) !in names && Named(FINAL, m, 1)
    }

    /** The marker was fully written: every later stage. */
    predicate Written(m: Marker)
      reads this
    {
      Staged(m) || Linked(m) || Published(m)
    }

    /** A temporary whose writing was cut short. */
    predicate Torn(m: Marker)
      reads this
    {
      Temporary(m.token) in names && FINAL !in names && !Named(Temporary(m.token), m, 1)
    }

    /** The final name is another process's file, exactly as that process left it. */
    predicate Taken(x: Inode)
      reads this
    {
      FINAL in names && names[FINAL] in inodes && inodes[names[FINAL]] == x
    }

    /** Another process publishes a file of its own under the final name. */
    method Appear(x: Inode)
      requires Valid() && FINAL !in names
      modifies this
      ensures Valid() && names == old(names)[FINAL := old(next)] && inodes == old(inodes)[old(next) := x]
    {
      names, inodes, next := names[FINAL := next], inodes[next := x], next + 1;
    }

    method Interrupt(calm: bool) returns (halt: Halt)
      ensures calm ==> halt == Go
    {
      halt := *;
      if calm { halt := Go; }
    }

    /** Links an inode to a name that must be free. */
    method Link(ino: nat, name: string) returns (ok: bool)
      requires Valid() && ino in inodes
      modifies this
      ensures Valid() && next == old(next)
      ensures ok <==> name !in old(names)
      ensures ok ==> names == old(names)[name := ino]
      ensures ok ==> inodes == old(inodes)[ino := old(inodes)[ino].(links := old(inodes)[ino].links + 1)]
      ensures !ok ==> names == old(names) && inodes == old(inodes)
    {
      if name in names { return false; }
      names := names[name := ino];
      inodes := inodes[ino := inodes[ino].(links := inodes[ino].links + 1)];
      return true;
    }

    /** Unlinks the temporary if it is still the file that was written. */
    method UnlinkTemporary(token: string, ino: nat) returns (ok: bool)
      requires Valid() && ino in inodes && (Temporary(token) in names && names[Temporary(token)] == ino ==>
                                            inodes[ino].links > 0)
      modifies this
      ensures Valid()
      ensures var t := Temporary(token);
              var mine := t in old(names) && old(names)[t] == ino && old(inodes)[ino].regular;
              && (ok <==> mine || t !in old(names))
              && (mine ==> names == old(names) - {t})
              && (mine ==> inodes == old(inodes)[ino := old(inodes)[ino].(links := old(inodes)[ino].links - 1)])
              && (!mine ==> names == old(names) && inodes == old(inodes))
    {
      var t := Temporary(token);
      if t !in names { return true; }
      if names[t] != ino || !inodes[ino].regular { return false; }
      names := names - {t};
      inodes := inodes[ino := inodes[ino].(links := inodes[ino].links - 1)];
      return true;
    }

    /** Nothing but the two names of this publication is touched. */
    twostate predicate OthersKept(token: string)
      reads this
    {
      names - {Temporary(token), FINAL} == old(names) - {Temporary(token), FINAL}
    }

    static function Stopped(halt: Halt): Result { if halt == Fail then Error else Crashed }

    /** Finishes a publication whose temporary is still there, and refuses a temporary that is not this marker. */
    method Reconcile(m: Marker, calm: bool) returns (r: Result)
      requires Valid()
      modifies this
      ensures Valid() && OthersKept(m.token)
      ensures r == Done ==> Temporary(m.token) !in names
      ensures old(Written(m)) ==> Written(m) && (calm ==> r == Done)
      ensures Temporary(m.token) in old(names) && r == Done ==> Published(m)
      ensures Temporary(m.token) !in old(names) || !old(Written(m)) ==> names == old(names) && inodes == old(inodes)
      ensures Temporary(m.token) !in old(names) && calm ==> r == Done
      ensures Temporary(m.token) in old(names) && !old(Written(m)) ==> r != Done
    {
      var t := Temporary(m.token);
      var halt := Interrupt(calm);
      if halt != Go { return Stopped(halt); }
      if t !in names { return Done; }
      var finalExists := FINAL in names;
      if !Named(t, m, if finalExists then 2 else 1) { return Error; }
      var ino := names[t];
      if finalExists {
        if !Named(FINAL, m, 2) || names[FINAL] != ino { return Error; }
      } else {
        halt := Interrupt(calm);
        if halt != Go { return Stopped(halt); }
        var linked := Link(ino, FINAL);
      }
      assert Linked(m);
      halt := Interrupt(calm);
      if halt != Go { return Stopped(halt); }
      var unlinked := UnlinkTemporary(m.token, ino);
      assert Published(m);
      halt := Interrupt(calm);
      if halt != Go { return Stopped(halt); }
      if !Named(FINAL, m, 1) { return Error; }
      return Done;
    }

    /** What a stopped run leaves of its own temporary: a failure unlinks it, if that works; a crash does not. */
    method Abort(halt: Halt, named: bool, m: Marker, ino: nat) returns (r: Result)
      requires Valid() && ino in inodes && halt != Go
      requires named && Temporary(m.token) in names ==> names[Temporary(m.token)] == ino && inodes[ino].links > 0
      requires inodes[ino].regular
      modifies this
      ensures Valid() && OthersKept(m.token) && r != Done
      ensures old(Clean(m.token)) ==> Clean(m.token)
      ensures old(Torn(m)) ==> Torn(m) || Clean(m.token)
      ensures old(Staged(m)) ==> Staged(m) || Clean(m.token)
      ensures old(Linked(m)) ==> Linked(m) || Published(m)
      ensures old(Published(m)) ==> Published(m)
    {
      if halt == Fail && named {
        var again := Interrupt(false);
        if again == Go { var _ := UnlinkTemporary(m.token, ino); }
      }
      return Stopped(halt);
    }

    /** Creates the empty temporary, with or without a name. */
    method CreateTemporary(m: Marker, named: bool) returns (ino: nat)
      requires Valid() && Clean(m.token)
      modifies this
      ensures Valid() && OthersKept(m.token) && ino in inodes &&
              inodes[ino] == Inode(true, true, if named then 1 else 0, OtherBytes)
      ensures if named then Torn(m) && names[Temporary(m.token)] == ino else Clean(m.token)
    {
      ino := next;
      next := next + 1;
      inodes := inodes[ino := Inode(true, true, if named then 1 else 0, OtherBytes)];
      if named { names := names[Temporary(m.token) := ino]; }
    }

    /** Links the written temporary to its final name and unlinks it. */
    method LinkAndUnlink(m: Marker, named: bool, ino: nat, calm: bool) returns (r: Result)
      requires Valid() && ino in inodes && Holds(inodes[ino], m, if named then 1 else 0)
      requires if named then Staged(m) && names[Temporary(m.token)] == ino else Clean(m.token)
      modifies this
      ensures Valid() && OthersKept(m.token) && Written(m)
      ensures r == Done ==> Published(m)
      ensures calm ==> r == Done
    {
      var linked := Link(ino, FINAL);
      assert if named then Linked(m) else Published(m);
      var halt := Interrupt(calm);
      if halt != Go { r := Abort(halt, named, m, ino); return; }
      if named { var unlinked := UnlinkTemporary(m.token, ino); }
      assert Published(m);
      halt := Interrupt(calm);
      return if halt == Go then Done else Stopped(halt);
    }

    /** Publishes a marker where there is none. If another process's file takes the final name first (`rival`), that
      * file is never replaced: it is adopted if it is exactly this marker, and otherwise the run fails. */
    method Create(m: Marker, named: bool, calm: bool, rival: Option<Inode>) returns (r: Result)
      requires Valid() && Clean(m.token)
      modifies this
      ensures Valid() && OthersKept(m.token)
      ensures Clean(m.token) || Torn(m) || Written(m) || (rival.Some? && Taken(rival.value))
      ensures r == Done ==> Published(m)
      ensures calm ==> (r == Done <==> rival.None? || Holds(rival.value, m, 1))
      ensures calm && rival.Some? ==> Taken(rival.value) && Temporary(m.token) !in names
    {
      var halt := Interrupt(calm);
      if halt != Go { return Stopped(halt); }
      var ino := CreateTemporary(m, named);
      halt := Interrupt(calm);
      if halt != Go { r := Abort(halt, named, m, ino); return; }
      inodes := inodes[ino := inodes[ino].(body := Encoded(m))];
      assert if named then Staged(m) else Clean(m.token);
      halt := Interrupt(calm);
      if halt != Go { r := Abort(halt, named, m, ino); return; }
      if rival.Some? {
        Appear(rival.value);
        r := GiveWay(m, named, ino, rival.value, calm);
      } else {
        r := LinkAndUnlink(m, named, ino, calm);
      }
    }

    /** The link fails because the final name is taken. */
    method GiveWay(m: Marker, named: bool, ino: nat, rival: Inode, calm: bool) returns (r: Result)
      requires Valid() && ino in inodes && Holds(inodes[ino], m, if named then 1 else 0)
      requires if named then Temporary(m.token) in names && names[Temporary(m.token)] == ino
               else Temporary(m.token) !in names
      requires Taken(rival) && names[FINAL] != ino
      modifies this
      ensures Valid() && OthersKept(m.token) && Taken(rival)
      ensures r == Done ==> Published(m)
      ensures calm ==> (r == Done <==> Holds(rival, m, 1)) && Temporary(m.token) !in names
    {
      var linked := Link(ino, FINAL);
      assert !linked;
      var halt := Interrupt(calm);
      if halt == Crash { return Crashed; }
      r := if halt == Go && Named(FINAL, m, 1) then Done else Error;
      halt := Interrupt(calm);
      if halt != Go { return Stopped(halt); }
      if named { var unlinked := UnlinkTemporary(m.token, ino); }
    }

    /** One run. A fully written marker survives every crash and failure; a calm run ends with the marker published,
      * a single link and no temporary, exactly from a fully written marker or a clean directory where no other file
      * takes the final name first; a published marker, and a directory this marker does not belong to, are left exactly
      * as they are. */
    method Publish(m: Marker, named: bool, calm: bool, rival: Option<Inode>) returns (r: Result)
      requires Valid()
      modifies this
      ensures Valid() && OthersKept(m.token)
      ensures r == Done ==> Published(m)
      ensures old(Written(m)) ==> Written(m)
      ensures old(Clean(m.token)) ==> Clean(m.token) || Torn(m) || Written(m) || (rival.Some? && Taken(rival.value))
      ensures calm ==>
                (r == Done <==>
                   old(Written(m)) || (old(Clean(m.token)) && (rival.None? || Holds(rival.value, m, 1))))
      ensures old(Published(m)) || !(old(Clean(m.token)) || old(Written(m))) ==>
              names == old(names) && inodes == old(inodes)
    {
      r := Reconcile(m, calm);
      if r != Done { return; }
      if FINAL in names {
        if !Named(FINAL, m, 1) { return Error; }
        var halt := Interrupt(calm);
        return if halt == Go then Done else Stopped(halt);
      }
      r := Create(m, named, calm, rival);
    }
  }

  /** Any number of interrupted runs after the marker was fully written, then one that is not interrupted: the
    * marker is published, and a further run changes nothing. */
  method PublishRepeatedly(d: Directory, m: Marker, named: seq<bool>, rivals: seq<Option<Inode>>)
    returns (r: Result, again: Result)
    requires d.Valid() && d.Written(m) && |rivals| == |named|
    modifies d
    ensures d.Valid() && d.Published(m) && r == Done && again == Done
    ensures d.names - {Temporary(m.token), FINAL} == old(d.names) - {Temporary(m.token), FINAL}
  {
    ghost var others := d.names - {Temporary(m.token), FINAL};
    for i := 0 to |named|
      invariant d.Valid() && d.Written(m) && d.names - {Temporary(m.token), FINAL} == others
    {
      var _ := d.Publish(m, named[i], false, rivals[i]);
    }
    r := d.Publish(m, false, true, None);
    ghost var names, inodes := d.names, d.inodes;
    again := d.Publish(m, true, true, None);
    assert d.names == names && d.inodes == inodes;
  }
}
