/**
  Giving a migrated key file its proper name: `fixMigratedKeyName` of `pkg/identity/holder.go` on top of
  the file steps of `pkg/identity/fileio.go`.

  Every file operation may fail without effect, and the ones that end with a directory sync may also take
  effect and then report an error. A `Faults` value fixes the behaviour of each operation of one call.
 */
module KeyRename {
  import opened Wrappers

  type Name = string        // a public key in hex, or a placeholder such as "legacy"
  type Contents = seq<int>

  /** The files that matter: the keys directory and the active file. */
  datatype Files = Files(keys: map<Name, Contents>, active: Option<Name>)

  datatype OpFault = Works | FailsBefore | FailsAfter

  /** Where writing the active file stops, in the order of the operations. */
  datatype WriteFault =
    | Completes | AtMkdir | AtCreateTemp | AtChmod | AtWrite | AtSync | AtClose | AtRename | AtDirSync

  datatype Faults = Faults(
    readSourceFails: bool, readDestFails: bool, rename: OpFault, write: WriteFault, rollback: OpFault, remove: OpFault)

  datatype Outcome = Outcome(files: Files, ok: bool)

  // ---------------------------------------------------------------- operations

  datatype Comparison = Same | Different | DestMissing | ReadError

  /** Only a missing destination is reported as such; a missing source is an ordinary read error. */
  function Compared(f: Files, source: Name, dest: Name, faults: Faults): Comparison {
    if faults.readSourceFails || source !in f.keys then ReadError
    else if faults.readDestFails then ReadError
    else if dest !in f.keys then DestMissing
    else if f.keys[source] == f.keys[dest] then Same
    else Different
  }

  function Renamed(f: Files, from: Name, to: Name): Files {
    if from in f.keys then f.(keys := (f.keys - {from})[to := f.keys[from]]) else f
  }

  function RenameOp(f: Files, from: Name, to: Name, fault: OpFault): Outcome {
    if from !in f.keys || fault == FailsBefore then Outcome(f, false)
    else Outcome(Renamed(f, from, to), fault == Works)
  }

  function RemoveOp(f: Files, name: Name, fault: OpFault): Outcome {
    if name !in f.keys || fault == FailsBefore then Outcome(f, false)
    else Outcome(f.(keys := f.keys - {name}), fault == Works)
  }

  predicate WriteTakesEffect(fault: WriteFault) {
    fault == Completes || fault == AtDirSync
  }

  function WriteActiveOp(f: Files, name: Name, fault: WriteFault): Outcome {
    Outcome(if WriteTakesEffect(fault) then f.(active := Some(name)) else f, fault == Completes)
  }

  function Fixed(f: Files, placeholder: Name, actual: Name, faults: Faults): Outcome {
    if placeholder == actual then Outcome(f, true)
    else match Compared(f, placeholder, actual, faults)
      case ReadError => Outcome(f, false)
      case Different => Outcome(f, false)
      case Same =>
        var w := WriteActiveOp(f, actual, faults.write);
        if !w.ok then w else RemoveOp(w.files, placeholder, faults.remove)
      case DestMissing =>
        var r := RenameOp(f, placeholder, actual, faults.rename);
        if !r.ok then r
        else
          var w := WriteActiveOp(r.files, actual, faults.write);
          if w.ok then w else Outcome(RenameOp(w.files, actual, placeholder, faults.rollback).files, false)
  }

  /** Which key an unlock uses: the one the active file names or, without that file, the only key there is. */
  predicate Resolved(f: Files, name: Name) {
    f.active == Some(name) || (f.active.None? && f.keys.Keys == {name})
  }

  // ---------------------------------------------------------------- the code

  class Holder {
    var keys: map<Name, Contents>
    var active: Option<Name>

    ghost function State(): Files
      reads this
    {
      Files(keys, active)
    }

    constructor (keys: map<Name, Contents>, active: Option<Name>)
      ensures State() == Files(keys, active)
    {
      this.keys, this.active := keys, active;
    }

    method ResolveActivePubkey() returns (name: Option<Name>)
      ensures name.Some? ==> Resolved(State(), name.value)
      ensures name.None? ==> forall n :: !Resolved(State(), n)
      ensures active.Some? ==> name == active
      ensures active.None? && |keys| == 1 ==> name.Some? && name.value in keys
      ensures active.None? && |keys| != 1 ==> name.None?
    {
      if active.Some? {
        return active;
      }
      if |keys.Keys| == 1 {
        var n :| n in keys.Keys;
        SingleKey(keys.Keys, n);
        return Some(n);
      }
      return None;
    }

    method FilesEqual(source: Name, dest: Name, faults: Faults) returns (c: Comparison)
      ensures c == Compared(State(), source, dest, faults)
    {
      if faults.readSourceFails || source !in keys {
        return ReadError;
      }
      var dataA := keys[source];
      if faults.readDestFails {
        return ReadError;
      }
      if dest !in keys {
        return DestMissing;
      }
      return if dataA == keys[dest] then Same else Different;
    }

    method RenameFileAndSync(from: Name, to: Name, fault: OpFault) returns (ok: bool)
      modifies this`keys
      ensures Outcome(State(), ok) == RenameOp(old(State()), from, to, fault)
      ensures ok <==> from in old(keys) && fault == Works
      ensures keys == if from in old(keys) && fault != FailsBefore then (old(keys) - {from})[to := old(keys)[from]] else old(keys)
    {
      if from !in keys || fault == FailsBefore {
        return false;
      }
      keys := (keys - {from})[to := keys[from]];
      return fault == Works;
    }

    method RemoveFileAndSync(name: Name, fault: OpFault) returns (ok: bool)
      modifies this`keys
      ensures Outcome(State(), ok) == RemoveOp(old(State()), name, fault)
      ensures ok <==> name in old(keys) && fault == Works
      ensures keys == if fault != FailsBefore then old(keys) - {name} else old(keys)
    {
      if name !in keys || fault == FailsBefore {
        return false;
      }
      keys := keys - {name};
      return fault == Works;
    }

    /** Temp file, sync, rename over the target, directory sync: only the rename changes the target. */
    method WriteActivePubkeyHex(name: Name, fault: WriteFault) returns (ok: bool)
      modifies this`active
      ensures Outcome(State(), ok) == WriteActiveOp(old(State()), name, fault)
      ensures ok <==> fault == Completes
      ensures active == if fault == Completes || fault == AtDirSync then Some(name) else old(active)
    {
      if fault == AtMkdir || fault == AtCreateTemp || fault == AtChmod || fault == AtWrite || fault == AtSync || fault == AtClose {
        return false;
      }
      if fault == AtRename {
        return false;
      }
      active := Some(name);
      return fault != AtDirSync;
    }

    method FixMigratedKeyName(placeholder: Name, actual: Name, faults: Faults) returns (ok: bool)
      modifies this
      ensures Outcome(State(), ok) == Fixed(old(State()), placeholder, actual, faults)
    {
      if placeholder == actual {
        return true;
      }
      var c := FilesEqual(placeholder, actual, faults);
      match c
      case ReadError => return false;
      case Different => return false;
      case Same =>
        ok := WriteActivePubkeyHex(actual, faults.write);
        if !ok {
          return false;
        }
        ok := RemoveFileAndSync(placeholder, faults.remove);
      case DestMissing =>
        ok := RenameFileAndSync(placeholder, actual, faults.rename);
        if !ok {
          return false;
        }
        ok := WriteActivePubkeyHex(actual, faults.write);
        if !ok {
          var rolledBack := RenameFileAndSync(actual, placeholder, faults.rollback);
          return false;
        }
    }
  }

  // ---------------------------------------------------------------- theorems

  lemma {:induction false} SingleKey(s: set<Name>, n: Name)
    requires |s| == 1 && n in s
    ensures s == {n}
  {
    assert |s - {n}| == 0;
    assert s == (s - {n}) + {n};
  }

  function Stored(f: Files): set<Contents> {
    set n | n in f.keys :: f.keys[n]
  }

  /** A rename onto a free name keeps the set of stored contents. */
  lemma {:induction false} RenameKeeps(f: Files, from: Name, to: Name)
    requires to !in f.keys
    ensures Stored(Renamed(f, from, to)) == Stored(f)
  {
    var g := Renamed(f, from, to);
    if from in f.keys {
      forall x | x in Stored(f) ensures x in Stored(g) {
        var n :| n in f.keys && f.keys[n] == x;
        if n == from { assert to in g.keys && g.keys[to] == x; } else { assert n in g.keys && g.keys[n] == x; }
      }
      forall x | x in Stored(g) ensures x in Stored(f) {
        var n :| n in g.keys && g.keys[n] == x;
        if n == to { assert f.keys[from] == x; } else { assert n in f.keys && f.keys[n] == x; }
      }
    }
  }

  /** Removing one of two equal files keeps the set of stored contents. */
  lemma {:induction false} RemoveKeeps(f: Files, name: Name, other: Name)
    requires name in f.keys && other in f.keys && name != other && f.keys[name] == f.keys[other]
    ensures Stored(f.(keys := f.keys - {name})) == Stored(f)
  {
    var g := f.(keys := f.keys - {name});
    forall x | x in Stored(f) ensures x in Stored(g) {
      var n :| n in f.keys && f.keys[n] == x;
      if n == name { assert other in g.keys && g.keys[other] == x; } else { assert n in g.keys; }
    }
  }

  lemma {:induction false} ActiveKeeps(f: Files, name: Name, fault: WriteFault)
    ensures Stored(WriteActiveOp(f, name, fault).files) == Stored(f)
  {
  }

  /** No pattern of faults loses or invents key contents. */
  lemma {:induction false} ContentsKept(f: Files, placeholder: Name, actual: Name, faults: Faults)
    ensures Stored(Fixed(f, placeholder, actual, faults).files) == Stored(f)
  {
    hide Stored;
    if placeholder != actual {
      match Compared(f, placeholder, actual, faults)
      case ReadError =>
      case Different =>
      case Same =>
        var w := WriteActiveOp(f, actual, faults.write);
        ActiveKeeps(f, actual, faults.write);
        if w.ok { RemoveKeeps(w.files, placeholder, actual); }
      case DestMissing =>
        var r := RenameOp(f, placeholder, actual, faults.rename);
        RenameKeeps(f, placeholder, actual);
        if r.ok {
          ActiveKeeps(r.files, actual, faults.write);
          RenameKeeps(WriteActiveOp(r.files, actual, faults.write).files, actual, placeholder);
        }
    }
  }

  /** An existing destination keeps its contents, and other keys are never touched. */
  lemma {:induction false} OthersUntouched(f: Files, placeholder: Name, actual: Name, faults: Faults, n: Name)
    requires n != placeholder
    ensures var g := Fixed(f, placeholder, actual, faults).files;
            && (n in f.keys ==> n in g.keys && g.keys[n] == f.keys[n])
            && (n in g.keys && n != actual ==> n in f.keys)
    ensures placeholder in f.keys && actual in f.keys && f.keys[actual] != f.keys[placeholder]
      ==> Fixed(f, placeholder, actual, faults) == Outcome(f, placeholder == actual)
  {
  }

  /** The next unlock finds a stored key file with the given contents. */
  ghost predicate Unlocks(f: Files, contents: Contents) {
    exists n :: Resolved(f, n) && n in f.keys && f.keys[n] == contents
  }

  /** On success the active file names the key under its proper name, if anything had to be done. */
  lemma {:induction false} SuccessIsConsistent(f: Files, placeholder: Name, actual: Name, faults: Faults)
    requires placeholder in f.keys && Fixed(f, placeholder, actual, faults).ok
    ensures var g := Fixed(f, placeholder, actual, faults).files;
            && actual in g.keys && g.keys[actual] == f.keys[placeholder]
            && (placeholder != actual ==> placeholder !in g.keys)
            && (g.active == Some(actual) <==> placeholder != actual || f.active == Some(actual))
  {
  }

  /**
    When the call succeeds: the key has its proper name already; or the proper name holds the same contents, and the active
    file is written and the placeholder removed; or the proper name is free, and the rename and the active file work. Then
    the key is there once, under its proper name, and the active file names it.
   */
  lemma {:induction false} SuccessIff(f: Files, placeholder: Name, actual: Name, faults: Faults)
    ensures Fixed(f, placeholder, actual, faults).ok
       <==> || placeholder == actual
            || (&& placeholder in f.keys && !faults.readSourceFails && !faults.readDestFails
                && actual in f.keys && f.keys[actual] == f.keys[placeholder]
                && faults.write == Completes && faults.remove == Works)
            || (&& placeholder in f.keys && !faults.readSourceFails && !faults.readDestFails
                && actual !in f.keys && faults.rename == Works && faults.write == Completes)
    ensures Fixed(f, placeholder, actual, faults).ok && placeholder == actual ==> Fixed(f, placeholder, actual, faults).files == f
    ensures Fixed(f, placeholder, actual, faults).ok && placeholder != actual ==>
      Fixed(f, placeholder, actual, faults).files == Files((f.keys - {placeholder})[actual := f.keys[placeholder]], Some(actual))
  {
  }

  /**
    The fault patterns after which the key is not found. With an active file: the key was renamed and the file still
    names the placeholder, or the file was replaced and the rename rolled back. Without one the single key is found
    under any name, so only the second remains.
   */
  predicate Strands(f: Files, placeholder: Name, actual: Name, faults: Faults) {
    && placeholder != actual && Compared(f, placeholder, actual, faults) == DestMissing
    && if faults.rename != Works then f.active.Some? && faults.rename == FailsAfter
       else if faults.write == AtDirSync then faults.rollback != FailsBefore
       else f.active.Some? && faults.write != Completes && faults.rollback == FailsBefore
  }

  /**
    Starting from a placeholder that unlocking resolves to, through the active file or as the only key, a call leaves
    the key to be found again exactly when the fault pattern is not one of `Strands`. In particular the rollback undoes
    the rename but not an active file that was already replaced.
   */
  lemma {:induction false} ConsistentIffNotStranded(f: Files, placeholder: Name, actual: Name, faults: Faults)
    requires placeholder in f.keys && Resolved(f, placeholder)
    ensures Unlocks(Fixed(f, placeholder, actual, faults).files, f.keys[placeholder])
       <==> !Strands(f, placeholder, actual, faults)
  {
    var g := Fixed(f, placeholder, actual, faults).files;
    if !Strands(f, placeholder, actual, faults) {
      if g.active.Some? {
        assert Resolved(g, g.active.value);
      } else if placeholder in g.keys {
        assert g.keys.Keys == {placeholder};
        assert Resolved(g, placeholder);
      } else {
        assert g.keys.Keys == {actual};
        assert Resolved(g, actual);
      }
    }
  }

  /** The smallest case: everything works except the last directory sync of the active file. */
  lemma {:induction false} RollbackStrands(contents: Contents)
    ensures var f := Files(map["legacy" := contents], Some("legacy"));
            var faults := Faults(false, false, Works, AtDirSync, Works, Works);
            var g := Fixed(f, "legacy", "ab", faults);
            !g.ok && g.files.active == Some("ab") && "ab" !in g.files.keys && "legacy" in g.files.keys
  {
  }
}
