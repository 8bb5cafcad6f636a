/** The trace file writer: an active file and numbered backups under one size budget. */
module TraceRotation {
  import opened Wrappers

  newtype Byte = x: int | 0 <= x < 256

  /** A file's bytes, or None where no file exists. Index 0 is the active file, index i the backup ".i". */
  type File = Option<seq<Byte>>

  function Bytes(f: File): seq<Byte> { if f.Some? then f.value else [] }

  /** Everything on disk, oldest backup first. */
  function Kept(files: seq<File>): seq<Byte> {
    if files == [] then [] else Kept(files[1..]) + Bytes(files[0])
  }

  ghost predicate Bounded(files: seq<File>, maxBytes: nat) {
    forall i :: 0 <= i < |files| ==> |Bytes(files[i])| <= maxBytes
  }

  ghost predicate Suffix(a: seq<Byte>, b: seq<Byte>) {
    |a| <= |b| && b[|b| - |a|..] == a
  }

  /** What the file system does during one call: `failAt` is the backup whose rename fails (0 for none),
      `written` how many bytes the append takes. */
  datatype Env = Env(statFails: bool, failAt: nat, openFails: bool, written: nat, closeFails: bool)

  // ----- specification -------------------------------------------------------

  /** Renaming file i-1 to i; a missing file leaves both as they are. */
  function Moved(files: seq<File>, i: nat): seq<File>
    requires 1 <= i < |files|
  {
    if files[i - 1].None? then files else files[i := files[i - 1]][i - 1 := None]
  }

  /** The renames from backup i down to the active file, and whether they all went through. */
  function Rotated(files: seq<File>, i: nat, failAt: nat): (r: (seq<File>, bool))
    requires i < |files|
    ensures |r.0| == |files|
    decreases i
  {
    if i == 0 then (files, true)
    else if i == failAt then (files, false)
    else Rotated(Moved(files, i), i - 1, failAt)
  }

  predicate Rotates(files: seq<File>, maxBytes: nat, p: seq<Byte>)
    requires files != []
  {
    files[0].Some? && |files[0].value| + |p| > maxBytes
  }

  /** How many bytes of `p` reach the active file. */
  function Taken(files: seq<File>, maxBytes: nat, p: seq<Byte>, env: Env): (n: nat)
    requires files != []
    ensures n <= |p|
  {
    if |p| > maxBytes || env.statFails || env.openFails then 0
    else if Rotates(files, maxBytes, p) && !Rotated(files, |files| - 1, env.failAt).1 then 0
    else if env.written <= |p| then env.written else |p|
  }

  /** The call reports an error: an oversized record, a failed inspection, rename, open or close, or a short append. */
  predicate Fails(files: seq<File>, maxBytes: nat, p: seq<Byte>, env: Env)
    requires files != []
  {
    || |p| > maxBytes || env.statFails
    || (Rotates(files, maxBytes, p) && !Rotated(files, |files| - 1, env.failAt).1)
    || env.openFails || env.written < |p| || env.closeFails
  }

  function Written(files: seq<File>, maxBytes: nat, p: seq<Byte>, env: Env): (r: seq<File>)
    requires files != []
    ensures |r| == |files|
  {
    if |p| > maxBytes || env.statFails then files
    else
      var (moved, ok) := if Rotates(files, maxBytes, p) then Rotated(files, |files| - 1, env.failAt) else (files, true);
      if !ok || env.openFails then moved
      else moved[0 := Some(Bytes(moved[0]) + p[..Taken(files, maxBytes, p, env)])]
  }

  // ----- one call ------------------------------------------------------------

  /** A rename into a missing backup loses nothing; into the last backup it loses only that backup. */
  lemma {:induction false} MovedKept(files: seq<File>, i: nat)
    requires 1 <= i < |files| && (files[i].None? || i == |files| - 1)
    ensures Kept(files) == Kept(Moved(files, i))
            || (i == |files| - 1 && Kept(files) == Bytes(files[i]) + Kept(Moved(files, i)))
  {
    var after := Moved(files, i);
    if after != files {
      if i == 1 {
        FirstMoved(files);
      } else {
        assert after[1..] == Moved(files[1..], i - 1) && files[1..][i - 1] == files[i];
        MovedKept(files[1..], i - 1);
        Regroup(Bytes(files[i]), Kept(after[1..]), Bytes(files[0]));
      }
    }
  }

  lemma Regroup(a: seq<Byte>, b: seq<Byte>, c: seq<Byte>)
    ensures a + b + c == a + (b + c)
  {
  }

  lemma Empties(r: seq<Byte>, b: seq<Byte>, c: seq<Byte>)
    ensures r + [] + c == r + c + [] && [] + b + c == b + ([] + c + [])
  {
  }

  lemma KeptOfTwo(files: seq<File>)
    requires |files| >= 2
    ensures Kept(files) == Kept(files[2..]) + Bytes(files[1]) + Bytes(files[0])
  {
    assert files[1..][1..] == files[2..];
  }

  /** The active file becomes the first backup. */
  lemma FirstMoved(files: seq<File>)
    requires |files| >= 2 && files[0].Some? && (files[1].None? || |files| == 2)
    ensures var after := Moved(files, 1);
            Kept(files) == Kept(after) || (|files| == 2 && Kept(files) == Bytes(files[1]) + Kept(after))
  {
    var after := Moved(files, 1);
    KeptOfTwo(files);
    KeptOfTwo(after);
    assert after[2..] == files[2..];
    Empties(Kept(files[2..]), Bytes(files[1]), Bytes(files[0]));
  }

  lemma {:induction false} RotatedKept(files: seq<File>, i: nat, failAt: nat, maxBytes: nat)
    requires i < |files| && (files[i].None? || i == |files| - 1)
    ensures var (r, ok) := Rotated(files, i, failAt);
            && (Kept(files) == Kept(r)
                || (i == |files| - 1 >= 1 && files[i - 1].Some? && Kept(files) == Bytes(files[i]) + Kept(r)))
            && (Bounded(files, maxBytes) ==> Bounded(r, maxBytes)) && (ok && i >= 1 ==> r[0].None?)
    decreases i
  {
    if i != 0 && i != failAt {
      MovedKept(files, i);
      RotatedKept(Moved(files, i), i - 1, failAt, maxBytes);
      if i == 1 { assert Rotated(Moved(files, 1), 0, failAt).0 == Moved(files, 1); }
    }
  }

  lemma AppendKept(files: seq<File>, more: seq<Byte>)
    requires files != []
    ensures Kept(files[0 := Some(Bytes(files[0]) + more)]) == Kept(files) + more
  {
    assert files[0 := Some(Bytes(files[0]) + more)][1..] == files[1..];
    assert Kept(files[1..]) + (Bytes(files[0]) + more) == Kept(files) + more;
  }

  lemma DropThenAppend(kept: seq<Byte>, dropped: seq<Byte>, moved: seq<Byte>, more: seq<Byte>)
    requires kept == moved || kept == dropped + moved
    ensures kept + more == moved + more || kept + more == dropped + (moved + more)
  {
    assert dropped + moved + more == dropped + (moved + more);
  }

  function AfterRotation(files: seq<File>, maxBytes: nat, p: seq<Byte>, env: Env): seq<File>
    requires files != []
  {
    if Rotates(files, maxBytes, p) then Rotated(files, |files| - 1, env.failAt).0 else files
  }

  lemma RotationKept(files: seq<File>, maxBytes: nat, p: seq<Byte>, env: Env)
    requires files != []
    ensures var moved := AfterRotation(files, maxBytes, p, env);
            |moved| == |files| && (Kept(files) == Kept(moved) || Kept(files) == Bytes(files[|files| - 1]) + Kept(moved))
  {
    RotatedKept(files, |files| - 1, env.failAt, maxBytes);
  }

  /** One call keeps the order of all bytes on disk, adds exactly what it reports at the end, and drops nothing
      but the oldest backup, whole, whatever fails. */
  lemma WriteKeepsOrder(files: seq<File>, maxBytes: nat, p: seq<Byte>, env: Env)
    requires files != []
    ensures var r := Written(files, maxBytes, p, env);
            var all := Kept(files) + p[..Taken(files, maxBytes, p, env)];
            all == Kept(r) || all == Bytes(files[|files| - 1]) + Kept(r)
  {
    var more := p[..Taken(files, maxBytes, p, env)];
    assert Kept(files) + [] == Kept(files);
    if |p| <= maxBytes && !env.statFails {
      var moved := AfterRotation(files, maxBytes, p, env);
      RotationKept(files, maxBytes, p, env);
      DropThenAppend(Kept(files), Bytes(files[|files| - 1]), Kept(moved), more);
      AppendKept(moved, more);
      assert Kept(moved) + [] == Kept(moved);
    }
  }

  /** With at least one backup, no call takes any file over the budget. */
  lemma WriteBounded(files: seq<File>, maxBytes: nat, p: seq<Byte>, env: Env)
    requires |files| >= 2 && Bounded(files, maxBytes)
    ensures Bounded(Written(files, maxBytes, p, env), maxBytes)
  {
    RotatedKept(files, |files| - 1, env.failAt, maxBytes);
  }

  /** The record fits the active file as it is. */
  predicate Roomy(files: seq<File>, maxBytes: nat, p: seq<Byte>)
    requires files != []
  {
    |p| <= maxBytes && |Bytes(files[0])| + |p| <= maxBytes
  }

  /** From `files` to `after`: order and budget kept, `n` bytes added, at most the oldest backup gone; a record that
      fits leaves every backup as it was, and one that no file could hold changes nothing. */
  ghost predicate Effect(files: seq<File>, maxBytes: nat, p: seq<Byte>, n: nat, after: seq<File>)
    requires files != [] && n <= |p|
  {
    && |after| == |files|
    && (Kept(files) + p[..n] == Kept(after) || Kept(files) + p[..n] == Bytes(files[|files| - 1]) + Kept(after))
    && (|files| >= 2 && Bounded(files, maxBytes) ==> Bounded(after, maxBytes))
    && (|p| > maxBytes ==> n == 0 && after == files)
    && (Roomy(files, maxBytes, p) ==> after[1..] == files[1..] && Kept(after) == Kept(files) + p[..n])
    && (!Roomy(files, maxBytes, p) && |files| >= 2 && n > 0 ==> after[0] == Some(p[..n]))
    && (|files| >= 2 && files[|files| - 2].None? ==> Kept(after) == Kept(files) + p[..n])
  }

  lemma RoomyAppends(files: seq<File>, maxBytes: nat, p: seq<Byte>, env: Env)
    requires files != [] && Roomy(files, maxBytes, p)
    ensures var after := Written(files, maxBytes, p, env);
            |after| == |files| && after[1..] == files[1..]
                && Kept(after) == Kept(files) + p[..Taken(files, maxBytes, p, env)]
  {
    var after := Written(files, maxBytes, p, env);
    AppendKept(files, p[..Taken(files, maxBytes, p, env)]);
    assert Kept(files) + [] == Kept(files);
  }

  /** A record that does not fit starts a fresh active file. */
  lemma FullStartsFresh(files: seq<File>, maxBytes: nat, p: seq<Byte>, env: Env)
    requires |files| >= 2 && !Roomy(files, maxBytes, p)
    ensures var n := Taken(files, maxBytes, p, env); n > 0 ==> Written(files, maxBytes, p, env)[0] == Some(p[..n])
  {
    RotatedKept(files, |files| - 1, env.failAt, maxBytes);
    assert [] + p[..Taken(files, maxBytes, p, env)] == p[..Taken(files, maxBytes, p, env)];
  }

  /** A backup is overwritten only by the one below it: where that is missing, nothing is lost. */
  lemma GapKeepsAll(files: seq<File>, maxBytes: nat, p: seq<Byte>, env: Env)
    requires |files| >= 2 && files[|files| - 2].None?
    ensures Kept(Written(files, maxBytes, p, env)) == Kept(files) + p[..Taken(files, maxBytes, p, env)]
  {
    var more := p[..Taken(files, maxBytes, p, env)];
    assert Kept(files) + [] == Kept(files);
    if |p| <= maxBytes && !env.statFails {
      var moved := AfterRotation(files, maxBytes, p, env);
      GapRotation(files, maxBytes, p, env);
      AppendKept(moved, more);
    }
  }

  lemma GapRotation(files: seq<File>, maxBytes: nat, p: seq<Byte>, env: Env)
    requires |files| >= 2 && files[|files| - 2].None?
    ensures var moved := AfterRotation(files, maxBytes, p, env); |moved| == |files| && Kept(moved) == Kept(files)
  {
    RotatedKept(files, |files| - 1, env.failAt, maxBytes);
  }

  lemma {:induction false} RotatedWorks(files: seq<File>, i: nat, failAt: nat)
    requires i < |files| && (failAt == 0 || failAt > i)
    ensures Rotated(files, i, failAt).1
    decreases i
  {
    if i > 0 { RotatedWorks(Moved(files, i), i - 1, failAt); }
  }

  /** Nothing fails: every inspection, rename, open and close works, and the append takes the whole record. */
  predicate Calm(files: seq<File>, p: seq<Byte>, env: Env) {
    !env.statFails && !env.openFails && !env.closeFails && |p| <= env.written
        && (env.failAt == 0 || env.failAt >= |files|)
  }

  /** A record within the budget is refused only if something failed. */
  lemma CalmTakesAll(files: seq<File>, maxBytes: nat, p: seq<Byte>, env: Env)
    requires files != [] && |p| <= maxBytes && Calm(files, p, env)
    ensures Taken(files, maxBytes, p, env) == |p| && !Fails(files, maxBytes, p, env)
  {
    RotatedWorks(files, |files| - 1, env.failAt);
  }

  lemma WriteEffect(files: seq<File>, maxBytes: nat, p: seq<Byte>, env: Env)
    requires files != []
    ensures Effect(files, maxBytes, p, Taken(files, maxBytes, p, env), Written(files, maxBytes, p, env))
  {
    WriteKeepsOrder(files, maxBytes, p, env);
    if |files| >= 2 && Bounded(files, maxBytes) {
      WriteBounded(files, maxBytes, p, env);
    }
    if Roomy(files, maxBytes, p) {
      RoomyAppends(files, maxBytes, p, env);
    } else if |files| >= 2 {
      FullStartsFresh(files, maxBytes, p, env);
    }
    if |files| >= 2 && files[|files| - 2].None? { GapKeepsAll(files, maxBytes, p, env); }
  }

  // ----- every history of calls ----------------------------------------------

  datatype Call = Call(p: seq<Byte>, env: Env)

  function Empty(backups: nat): seq<File> { seq(backups + 1, _ => None) }

  function After(backups: nat, maxBytes: nat, calls: seq<Call>): (files: seq<File>)
    ensures |files| == backups + 1
  {
    if calls == [] then Empty(backups)
    else
      var last := calls[|calls| - 1];
      Written(After(backups, maxBytes, calls[..|calls| - 1]), maxBytes, last.p, last.env)
  }

  /** All bytes the calls reported as written, in order. */
  function Appended(backups: nat, maxBytes: nat, calls: seq<Call>): seq<Byte> {
    if calls == [] then []
    else
      var (before, last) := (calls[..|calls| - 1], calls[|calls| - 1]);
      Appended(backups, maxBytes, before) +
          last.p[..Taken(After(backups, maxBytes, before), maxBytes, last.p, last.env)]
  }

  lemma {:induction false} NothingKept(files: seq<File>)
    requires forall f <- files :: f.None?
    ensures Kept(files) == []
  {
    if files != [] {
      NothingKept(files[1..]);
      assert files[0] in files;
    }
  }

  lemma SuffixGrows(kept: seq<Byte>, all: seq<Byte>, more: seq<Byte>, dropped: seq<Byte>, after: seq<Byte>)
    requires Suffix(kept, all) && kept + more == dropped + after
    ensures Suffix(after, all + more)
  {
    var cut := |all| - |kept|;
    assert all == all[..cut] + kept;
    calc {
      all + more;
      all[..cut] + (kept + more);
      (all[..cut] + dropped) + after;
    }
  }

  lemma WriteSuffix(files: seq<File>, maxBytes: nat, p: seq<Byte>, env: Env, all: seq<Byte>)
    requires files != [] && Suffix(Kept(files), all)
    ensures Suffix(Kept(Written(files, maxBytes, p, env)), all + p[..Taken(files, maxBytes, p, env)])
  {
    WriteKeepsOrder(files, maxBytes, p, env);
    var more, r := p[..Taken(files, maxBytes, p, env)], Kept(Written(files, maxBytes, p, env));
    var dropped := if Kept(files) + more == r then [] else Bytes(files[|files| - 1]);
    assert [] + r == r;
    SuffixGrows(Kept(files), all, more, dropped, r);
  }

  /** Order: in every history, whatever failed, the files oldest first are the end of everything appended. */
  lemma {:induction false} RotationKeepsOrder(backups: nat, maxBytes: nat, calls: seq<Call>)
    ensures Suffix(Kept(After(backups, maxBytes, calls)), Appended(backups, maxBytes, calls))
  {
    if calls == [] {
      NothingKept(Empty(backups));
    } else {
      var before, last := calls[..|calls| - 1], calls[|calls| - 1];
      RotationKeepsOrder(backups, maxBytes, before);
      var files := After(backups, maxBytes, before);
      WriteSuffix(files, maxBytes, last.p, last.env, Appended(backups, maxBytes, before));
    }
  }

  lemma {:induction false} RotationBounded(backups: nat, maxBytes: nat, calls: seq<Call>)
    requires backups >= 1 || maxBytes == 0
    ensures Bounded(After(backups, maxBytes, calls), maxBytes)
  {
    if calls != [] {
      var before, last := calls[..|calls| - 1], calls[|calls| - 1];
      RotationBounded(backups, maxBytes, before);
      if backups >= 1 {
        WriteBounded(After(backups, maxBytes, before), maxBytes, last.p, last.env);
      }
    }
  }

  /** Without a backup there is nothing to rotate into: the second call appends past the budget. */
  lemma NoBackupsOverflow(maxBytes: nat)
    requires maxBytes >= 1
    ensures exists calls :: !Bounded(After(0, maxBytes, calls), maxBytes)
  {
    var call := Call(seq(maxBytes, _ => 0), Env(false, 0, false, maxBytes, false));
    var one, two := [call], [call, call];
    assert one[..0] == [] && two[..1] == one;
    var first := Written(Empty(0), maxBytes, call.p, call.env);
    assert After(0, maxBytes, one) == first && |Bytes(first[0])| == maxBytes;
    assert After(0, maxBytes, two) == Written(first, maxBytes, call.p, call.env);
    assert |Bytes(After(0, maxBytes, two)[0])| == maxBytes + maxBytes;
  }

  /** Size: every history keeps every file within the budget exactly when there is a backup to rotate into
      (or the budget admits no byte at all). */
  lemma BudgetHoldsIff(backups: nat, maxBytes: nat)
    ensures (forall calls :: Bounded(After(backups, maxBytes, calls), maxBytes)) <==> backups >= 1 || maxBytes == 0
  {
    if backups >= 1 || maxBytes == 0 {
      forall calls ensures Bounded(After(backups, maxBytes, calls), maxBytes) {
        RotationBounded(backups, maxBytes, calls);
      }
    } else {
      NoBackupsOverflow(maxBytes);
    }
  }

  // ----- the writer ----------------------------------------------------------

  class TraceFileWriter {
    const maxBytes: nat
    const backups: nat
    var files: seq<File>

    ghost predicate Valid()
      reads this
    {
      |files| == backups + 1
    }

    constructor (maxBytes: nat, backups: nat, files: seq<File>)
      requires |files| == backups + 1
      ensures Valid() && this.maxBytes == maxBytes && this.backups == backups && this.files == files
    {
      this.maxBytes, this.backups, this.files := maxBytes, backups, files;
    }

    /** Removes every file over the budget; `failAt` is the file that cannot be inspected or removed. */
    method CleanOversized(failAt: Option<nat>) returns (ok: bool)
      requires Valid()
      modifies this
      ensures Valid()
      ensures forall i :: 0 <= i < |files| ==>
        files[i] == old(files[i]) || (files[i].None? && |Bytes(old(files[i]))| > maxBytes)
      ensures ok ==> Bounded(files, maxBytes)
    {
      var i := 0;
      while i <= backups
        invariant i <= backups + 1 && Valid()
        invariant forall j :: 0 <= j < |files| ==>
          files[j] == old(files[j]) || (files[j].None? && |Bytes(old(files[j]))| > maxBytes)
        invariant forall j :: 0 <= j < i ==> |Bytes(files[j])| <= maxBytes
      {
        if files[i].Some? {
          if failAt == Some(i) {
            return false;
          }
          if |files[i].value| > maxBytes {
            files := files[i := None];
          }
        }
        i := i + 1;
      }
      return true;
    }

    /** The rename loop. */
    method Rotate(failAt: nat) returns (ok: bool)
      requires Valid()
      modifies this
      ensures Valid() && (files, ok) == Rotated(old(files), backups, failAt)
    {
      var i: nat := backups;
      while i > 0
        invariant i <= backups && Valid()
        invariant Rotated(old(files), backups, failAt) == Rotated(files, i, failAt)
      {
        if i == failAt {
          return false;
        }
        if files[i - 1].Some? {
          files := files[i := files[i - 1]][i - 1 := None];
        }
        i := i - 1;
      }
      return true;
    }

    method Write(p: seq<Byte>, env: Env) returns (n: nat, failed: bool)
      requires Valid()
      modifies this
      ensures Valid() && files == Written(old(files), maxBytes, p, env) && n == Taken(old(files), maxBytes, p, env)
      ensures failed == Fails(old(files), maxBytes, p, env) && (!failed ==> n == |p|)
      ensures Effect(old(files), maxBytes, p, n, files)
      ensures |p| <= maxBytes && Calm(old(files), p, env) ==> n == |p| && !failed
      ensures !failed ==> n == |p| <= maxBytes && !env.statFails && !env.openFails && !env.closeFails
    {
      if |p| <= maxBytes && Calm(files, p, env) { CalmTakesAll(files, maxBytes, p, env); }
      WriteEffect(files, maxBytes, p, env);
      if |p| > maxBytes || env.statFails {
        return 0, true;
      }
      if files[0].Some? && |files[0].value| + |p| > maxBytes {
        var ok := Rotate(env.failAt);
        if !ok {
          return 0, true;
        }
      }
      if env.openFails {
        return 0, true;
      }
      n := if env.written <= |p| then env.written else |p|;
      failed := n < |p| || env.closeFails;
      files := files[0 := Some(Bytes(files[0]) + p[..n])];
    }
  }
}
