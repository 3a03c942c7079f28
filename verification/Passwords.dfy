/** Changing and resetting passwords: the history rows, the reuse check, and what five remembered rows guarantee. */
module Passwords {
  import opened Text
  import opened Sequences

  /** A salted hash matches exactly the password it was made from. */
  datatype Hash = Hash(password: string, salt: int)

  predicate Matches(password: string, hash: Hash) {
    hash.password == password
  }

  datatype HistoryRow = HistoryRow(id: nat, hash: Hash, createdAt: int)

  const PASSWORD_HISTORY_LIMIT := 5

  datatype Failure = PolicyViolated | WrongPassword | Reused

  /** Rank for `orderBy: { createdAt: 'desc' }`. */
  function Newest(row: HistoryRow): int {
    -row.createdAt
  }

  function NewestFirst(rows: seq<HistoryRow>): seq<HistoryRow> {
    Sort(rows, Newest)
  }

  function FirstFive<T>(s: seq<T>): seq<T> {
    if |s| <= PASSWORD_HISTORY_LIMIT then s else s[..PASSWORD_HISTORY_LIMIT]
  }

  function HashOf(row: HistoryRow): Hash {
    row.hash
  }

  /** The hashes remembered, newest first. */
  function Remembered(rows: seq<HistoryRow>): seq<Hash> {
    Map(NewestFirst(rows), HashOf)
  }

  function IdsOf(rows: seq<HistoryRow>): seq<nat> {
    Map(rows, (row: HistoryRow) => row.id)
  }

  /** Distinct ids below the next one, and rows created at different times, oldest first. */
  ghost predicate InOrder(rows: seq<HistoryRow>, nextId: nat) {
    && (forall i, j :: 0 <= i < j < |rows| ==> rows[i].createdAt < rows[j].createdAt && rows[i].id != rows[j].id)
    && (forall i :: 0 <= i < |rows| ==> rows[i].id < nextId)
  }

  /** No row is from the given time or later. */
  ghost predicate AllBefore(rows: seq<HistoryRow>, now: int) {
    forall i :: 0 <= i < |rows| ==> rows[i].createdAt < now
  }

  lemma RowAdded(rows: seq<HistoryRow>, nextId: nat, hash: Hash, now: int)
    requires InOrder(rows, nextId) && AllBefore(rows, now)
    ensures var all := rows + [HistoryRow(nextId, hash, now)];
      InOrder(all, nextId + 1) && AllBefore(all, now + 1)
  {
  }

  lemma RowDropped(rows: seq<HistoryRow>, nextId: nat, now: int)
    requires InOrder(rows, nextId) && AllBefore(rows, now) && rows != []
    ensures InOrder(rows[1..], nextId) && AllBefore(rows[1..], now)
  {
  }

  class PasswordService {
    var passwordHash: Hash
    var rows: seq<HistoryRow>
    var nextId: nat

    /** Never more than five rows. */
    ghost predicate Valid()
      reads this
    {
      |rows| <= PASSWORD_HISTORY_LIMIT && InOrder(rows, nextId)
    }

    ghost predicate Before(now: int)
      reads this
    {
      AllBefore(rows, now)
    }

    constructor (first: Hash)
      ensures Valid() && passwordHash == first && rows == []
    {
      passwordHash, rows, nextId := first, [], 0;
    }

    method AssertNotReusedPassword(newPassword: string) returns (reused: bool)
      requires Valid()
      ensures reused <==> Matches(newPassword, passwordHash) || exists h <- Remembered(rows) :: Matches(newPassword, h)
    {
      hide Sort;
      var histories := FirstFive(NewestFirst(rows));
      SortSorts(rows, Newest);
      var candidates := [passwordHash] + Map(histories, HashOf);
      for i := 0 to |candidates|
        invariant forall j :: 0 <= j < i ==> !Matches(newPassword, candidates[j])
      {
        if Matches(newPassword, candidates[i]) {
          assert i > 0 ==> candidates[i] == Remembered(rows)[i - 1] && candidates[i] in Remembered(rows);
          return true;
        }
      }
      forall h <- Remembered(rows) ensures !Matches(newPassword, h) {
        var k :| 0 <= k < |Remembered(rows)| && Remembered(rows)[k] == h;
        assert candidates[k + 1] == h;
      }
      assert candidates[0] == passwordHash;
      return false;
    }

    /** Adds a row for the replaced hash and deletes all but the five newest. */
    method RecordPasswordChange(oldHash: Hash, now: int)
      requires Valid() && Before(now)
      modifies this`rows, this`nextId
      ensures Valid() && Before(now + 1)
      ensures Remembered(rows) == FirstFive([oldHash] + old(Remembered(rows)))
    {
      hide Sort, Filter, InOrder, AllBefore, Remembered, IdsOf, NewestFirst;
      ghost var before := rows;
      rows := rows + [HistoryRow(nextId, oldHash, now)];
      nextId := nextId + 1;
      ghost var all := rows;
      RowAdded(before, nextId - 1, oldHash, now);
      RememberedSnoc(before, nextId, HistoryRow(nextId - 1, oldHash, now));
      NewestLength(all);
      var excess := if |rows| <= PASSWORD_HISTORY_LIMIT then [] else NewestFirst(rows)[PASSWORD_HISTORY_LIMIT..];
      if |excess| > 0 {
        var ids := IdsOf(excess);
        rows := Filter(rows, (row: HistoryRow) => row.id !in ids);
        OldestGoes(all, nextId, ids);
        RowDropped(all, nextId, now + 1);
      }
    }

    method ChangePassword(currentPassword: string, newPassword: string, policyOk: bool, salt: int, now: int)
      returns (failure: Option<Failure>)
      requires Valid() && Before(now)
      modifies this
      ensures Valid() && Before(now + 1)
      ensures (Known(passwordHash, rows), failure)
           == Change(old(Known(passwordHash, rows)), currentPassword, newPassword, policyOk, salt)
    {
      if !policyOk {
        return Some(PolicyViolated);
      }
      var isValid := Matches(currentPassword, passwordHash);
      if !isValid {
        return Some(WrongPassword);
      }
      var reused := AssertNotReusedPassword(newPassword);
      if reused {
        return Some(Reused);
      }
      var oldHash := passwordHash;
      passwordHash := Hash(newPassword, salt);
      RecordPasswordChange(oldHash, now);
      return None;
    }

    /** A reset neither checks for reuse nor records the hash it replaces. */
    method ResetPassword(newPassword: string, policyOk: bool, salt: int) returns (failure: Option<Failure>)
      requires Valid()
      modifies this`passwordHash
      ensures Valid()
      ensures (Known(passwordHash, rows), failure) == Reset(old(Known(passwordHash, rows)), newPassword, policyOk, salt)
    {
      if !policyOk {
        return Some(PolicyViolated);
      }
      passwordHash := Hash(newPassword, salt);
      return None;
    }
  }

  /** Rows created one after another come out newest first as the reverse. */
  lemma {:induction false} SortedByTime(rows: seq<HistoryRow>)
    requires forall i, j :: 0 <= i < j < |rows| ==> rows[i].createdAt < rows[j].createdAt
    ensures |NewestFirst(rows)| == |rows|
    ensures forall i :: 0 <= i < |rows| ==> NewestFirst(rows)[i] == rows[|rows| - 1 - i]
  {
    if rows != [] {
      var tail := rows[1..];
      SortedByTime(tail);
      var rest := NewestFirst(tail);
      InsertAtEnd(rows[0], rest);
    }
  }

  lemma {:induction false} RememberedMeaning(rows: seq<HistoryRow>)
    requires forall i, j :: 0 <= i < j < |rows| ==> rows[i].createdAt < rows[j].createdAt
    ensures |Remembered(rows)| == |rows|
    ensures forall i :: 0 <= i < |rows| ==> Remembered(rows)[i] == rows[|rows| - 1 - i].hash
  {
    SortedByTime(rows);
    forall i | 0 <= i < |rows| ensures Remembered(rows)[i] == rows[|rows| - 1 - i].hash {
      assert Remembered(rows)[i] == HashOf(NewestFirst(rows)[i]);
    }
  }

  lemma NewestLength(rows: seq<HistoryRow>)
    ensures |NewestFirst(rows)| == |rows| == |Remembered(rows)|
  {
    SortSorts(rows, Newest);
  }

  lemma {:induction false} RememberedSnoc(rows: seq<HistoryRow>, nextId: nat, row: HistoryRow)
    requires InOrder(rows + [row], nextId)
    ensures Remembered(rows + [row]) == [row.hash] + Remembered(rows)
  {
    hide Remembered;
    var all := rows + [row];
    assert forall i :: 0 <= i < |rows| ==> all[i] == rows[i];
    RememberedMeaning(all);
    RememberedMeaning(rows);
  }

  /** With six rows, deleting the excess deletes exactly the oldest. */
  lemma {:induction false} OldestGoes(rows: seq<HistoryRow>, nextId: nat, ids: seq<nat>)
    requires InOrder(rows, nextId) && |rows| == PASSWORD_HISTORY_LIMIT + 1
    requires |NewestFirst(rows)| == |rows| && ids == IdsOf(NewestFirst(rows)[PASSWORD_HISTORY_LIMIT..])
    ensures Filter(rows, (row: HistoryRow) => row.id !in ids) == rows[1..]
    ensures Remembered(rows[1..]) == FirstFive(Remembered(rows))
  {
    hide Remembered, Filter;
    SortedByTime(rows);
    assert NewestFirst(rows)[PASSWORD_HISTORY_LIMIT..] == [rows[0]];
    DropFirst(rows, ids);
    RememberedMeaning(rows);
    RememberedMeaning(rows[1..]);
  }

  lemma {:induction false} InsertAtEnd(x: HistoryRow, s: seq<HistoryRow>)
    requires forall i :: 0 <= i < |s| ==> Newest(s[i]) < Newest(x)
    ensures Insert(x, s, Newest) == s + [x]
  {
    if s != [] {
      InsertAtEnd(x, s[1..]);
    }
  }

  lemma {:induction false} DropFirst(rows: seq<HistoryRow>, ids: seq<nat>)
    requires rows != [] && ids == [rows[0].id]
    requires forall i, j :: 0 <= i < j < |rows| ==> rows[i].id != rows[j].id
    ensures Filter(rows, (row: HistoryRow) => row.id !in ids) == rows[1..]
  {
    KeepAll(rows[1..], ids);
  }

  lemma {:induction false} KeepAll(rows: seq<HistoryRow>, ids: seq<nat>)
    requires forall i :: 0 <= i < |rows| ==> rows[i].id !in ids
    ensures Filter(rows, (row: HistoryRow) => row.id !in ids) == rows
  {
    if rows != [] {
      KeepAll(rows[1..], ids);
    }
  }

  // ----- The window, without rows -----

  /** The current hash and the remembered ones, newest first. */
  datatype Knowledge = Knowledge(current: Hash, remembered: seq<Hash>)

  function Known(current: Hash, rows: seq<HistoryRow>): Knowledge {
    Knowledge(current, Remembered(rows))
  }

  predicate IsReused(k: Knowledge, password: string) {
    Matches(password, k.current) || exists h <- k.remembered :: Matches(password, h)
  }

  function Change(k: Knowledge, currentPassword: string, newPassword: string, policyOk: bool, salt: int)
    : (Knowledge, Option<Failure>)
  {
    if !policyOk then (k, Some(PolicyViolated))
    else if !Matches(currentPassword, k.current) then (k, Some(WrongPassword))
    else if IsReused(k, newPassword) then (k, Some(Reused))
    else (Knowledge(Hash(newPassword, salt), FirstFive([k.current] + k.remembered)), None)
  }

  function Reset(k: Knowledge, newPassword: string, policyOk: bool, salt: int): (Knowledge, Option<Failure>) {
    if !policyOk then (k, Some(PolicyViolated)) else (k.(current := Hash(newPassword, salt)), None)
  }

  // ----- Runs -----

  datatype Op =
    | ChangeOp(currentPassword: string, newPassword: string, policyOk: bool, salt: int)
    | ResetOp(resetTo: string, allowed: bool, pepper: int)

  function Step(k: Knowledge, op: Op): (Knowledge, Option<Failure>) {
    match op
    case ChangeOp(currentPassword, newPassword, policyOk, salt) =>
      Change(k, currentPassword, newPassword, policyOk, salt)
    case ResetOp(resetTo, allowed, pepper) => Reset(k, resetTo, allowed, pepper)
  }

  function Run(k: Knowledge, ops: seq<Op>): Knowledge {
    if ops == [] then k else Step(Run(k, ops[..|ops| - 1]), ops[|ops| - 1]).0
  }

  /** The current hash at the start and after every successful operation, newest first. */
  function Passwords(k: Knowledge, ops: seq<Op>): seq<Hash> {
    if ops == [] then [k.current]
    else
      var n := |ops| - 1;
      var earlier, (next, failure) := Passwords(k, ops[..n]), Step(Run(k, ops[..n]), ops[n]);
      if failure.None? then [next.current] + earlier else earlier
  }

  /** The hashes that successful changes replaced, newest first. */
  function Replaced(k: Knowledge, ops: seq<Op>): seq<Hash> {
    if ops == [] then []
    else
      var n := |ops| - 1;
      var earlier, before := Replaced(k, ops[..n]), Run(k, ops[..n]);
      if ops[n].ChangeOp? && Step(before, ops[n]).1.None? then [before.current] + earlier else earlier
  }

  /** With changes and resets in any order, the history is the latest five hashes that changes replaced. */
  lemma {:induction false} HistoryIsLatestReplaced(start: Hash, ops: seq<Op>)
    ensures Run(Knowledge(start, []), ops).remembered == FirstFive(Replaced(Knowledge(start, []), ops))
  {
    if ops != [] {
      HistoryIsLatestReplaced(start, ops[..|ops| - 1]);
    }
  }

  /**
   With resets in between too, a change that is allowed otherwise is refused as a reuse exactly when it picks the
   current password or one of the latest five that changes replaced.
   */
  lemma {:induction false} ReuseIsRefused(start: Hash, ops: seq<Op>, op: Op)
    requires op.ChangeOp? && op.policyOk
    requires Matches(op.currentPassword, Run(Knowledge(start, []), ops).current)
    ensures var k := Knowledge(start, []);
            var (after, failure) := Step(Run(k, ops), op);
      && (failure == Some(Reused) <==>
            || Matches(op.newPassword, Run(k, ops).current)
            || exists h <- FirstFive(Replaced(k, ops)) :: Matches(op.newPassword, h))
      && (failure.None? <==> failure != Some(Reused))
      && (failure.None? ==> after.current.password == op.newPassword)
  {
    hide Run, Replaced, FirstFive;
    HistoryIsLatestReplaced(start, ops);
  }

  /** A reset records nothing: after it a change may return to the password before the reset. */
  lemma {:induction false} ResetMayRepeat(first: Hash, between: string, salt: int) returns (ops: seq<Op>)
    requires between != first.password
    ensures |ops| == 2
    ensures Passwords(Knowledge(first, []), ops) == [Hash(first.password, salt), Hash(between, salt), first]
  {
    var k := Knowledge(first, []);
    var reset, change := ResetOp(between, true, salt), ChangeOp(between, first.password, true, salt);
    ops := [reset, change];
    assert ops[..1] == [reset] && ops[..1][..0] == [];
    assert Run(k, [reset]) == Knowledge(Hash(between, salt), []);
    assert Passwords(k, [reset]) == [Hash(between, salt), first];
  }

  lemma {:induction false} ChangesReplaceAll(start: Hash, ops: seq<Op>)
    requires forall op <- ops :: op.ChangeOp?
    ensures var k := Knowledge(start, []);
      Passwords(k, ops) == [Run(k, ops).current] + Replaced(k, ops)
  {
    hide Step;
    if ops != [] {
      var n, k := |ops| - 1, Knowledge(start, []);
      var earlier := ops[..n];
      assert ops[n] in ops && forall op <- earlier :: op in ops;
      ChangesReplaceAll(start, earlier);
      FailureKeepsAll(Run(k, earlier), ops[n]);
      hide Run, Passwords, Replaced;
      LastOfRun(k, ops);
    }
  }

  lemma LastOfRun(k: Knowledge, ops: seq<Op>)
    requires ops != []
    ensures var n := |ops| - 1;
            var before := Run(k, ops[..n]);
            var (next, failure) := Step(before, ops[n]);
      && Run(k, ops) == next
      && Passwords(k, ops) == (if failure.None? then [next.current] else []) + Passwords(k, ops[..n])
      && Replaced(k, ops)
           == (if ops[n].ChangeOp? && failure.None? then [before.current] else []) + Replaced(k, ops[..n])
  {
    hide Step;
    assert [] + Passwords(k, ops[..|ops| - 1]) == Passwords(k, ops[..|ops| - 1]);
    assert [] + Replaced(k, ops[..|ops| - 1]) == Replaced(k, ops[..|ops| - 1]);
  }

  lemma FailureKeepsAll(k: Knowledge, op: Op)
    ensures Step(k, op).1.Some? ==> Step(k, op).0 == k
  {
  }

  /** In every run of changes any seven consecutive passwords are pairwise different. */
  lemma {:induction false} SevenInARowDiffer(start: Hash, ops: seq<Op>)
    requires forall op <- ops :: op.ChangeOp?
    ensures var used := Passwords(Knowledge(start, []), ops);
      forall i, j :: 0 <= i < j < |used| && j < i + 7 ==> used[i].password != used[j].password
  {
    if ops != [] {
      var n, k := |ops| - 1, Knowledge(start, []);
      var earlier := ops[..n];
      assert ops[n] in ops && forall op <- earlier :: op in ops;
      SevenInARowDiffer(start, earlier);
      var before := Run(k, earlier);
      var (next, failure) := Step(before, ops[n]);
      if failure.None? {
        var used := Passwords(k, earlier);
        ChangesReplaceAll(start, earlier);
        HistoryIsLatestReplaced(start, earlier);
        forall j | 0 <= j < |used| && j < 6 ensures used[j].password != next.current.password {
          if j > 0 {
            assert used[j] == Replaced(k, earlier)[j - 1] == before.remembered[j - 1];
            assert used[j] in before.remembered;
          }
        }
        var all := Passwords(k, ops);
        assert all == [next.current] + used;
        forall i, j | 0 <= i < j < |all| && j < i + 7 ensures all[i].password != all[j].password {
          if i > 0 {
            assert all[i] == used[i - 1] && all[j] == used[j - 1];
          }
        }
      } else {
        assert Passwords(k, ops) == Passwords(k, earlier);
      }
    }
  }

  /** One more change, to a password that is not among the six latest. */
  lemma {:induction false} OneMoreChange(start: Hash, ops: seq<Op>, next: string, salt: int)
    requires forall op <- ops :: op.ChangeOp?
    requires forall h <- FirstSix(Passwords(Knowledge(start, []), ops)) :: h.password != next
    ensures var k := Knowledge(start, []);
      Passwords(k, ops + [ChangeOp(Run(k, ops).current.password, next, true, salt)])
        == [Hash(next, salt)] + Passwords(k, ops)
  {
    hide Run, Passwords, Replaced;
    var k := Knowledge(start, []);
    var now, used := Run(k, ops), Passwords(k, ops);
    ChangesReplaceAll(start, ops);
    HistoryIsLatestReplaced(start, ops);
    assert used[0] == now.current && used[0] in FirstSix(used);
    forall h <- now.remembered ensures !Matches(next, h) {
      var j :| 0 <= j < |now.remembered| && now.remembered[j] == h;
      assert FirstSix(used)[j + 1] == h;
    }
    LastOfPasswords(k, ops, ChangeOp(now.current.password, next, true, salt));
  }

  lemma {:induction false} LastOfPasswords(k: Knowledge, ops: seq<Op>, op: Op)
    ensures Passwords(k, ops + [op])
         == var (next, failure) := Step(Run(k, ops), op);
            if failure.None? then [next.current] + Passwords(k, ops) else Passwords(k, ops)
  {
    hide Step;
    assert (ops + [op])[..|ops|] == ops;
  }

  function FirstSix<T>(s: seq<T>): seq<T> {
    if |s| <= 6 then s else s[..6]
  }

  /** `p[0]`, then `p[1]` up to `p[n]`, newest first. */
  function Reversed(p: seq<string>, n: nat, salt: int): seq<Hash>
    requires n < |p|
  {
    if n == 0 then [Hash(p[0], salt)] else [Hash(p[n], salt)] + Reversed(p, n - 1, salt)
  }

  lemma {:induction false} ReversedMeaning(p: seq<string>, n: nat, salt: int)
    requires n < |p|
    ensures |Reversed(p, n, salt)| == n + 1
    ensures forall j :: 0 <= j <= n ==> Reversed(p, n, salt)[j] == Hash(p[n - j], salt)
  {
    if n > 0 {
      ReversedMeaning(p, n - 1, salt);
    }
  }

  /** Passwords that are all different can be set one after another. */
  lemma {:induction false} DifferentPasswords(p: seq<string>, n: nat, salt: int) returns (ops: seq<Op>)
    requires n < |p| && Distinct(p)
    ensures |ops| == n && forall op <- ops :: op.ChangeOp?
    ensures Passwords(Knowledge(Hash(p[0], salt), []), ops) == Reversed(p, n, salt)
  {
    ops := [];
    if n > 0 {
      hide Passwords, Run, FirstSix;
      ops := DifferentPasswords(p, n - 1, salt);
      NewPasswordIsUnused(p, n, salt);
      OneMoreChange(Hash(p[0], salt), ops, p[n], salt);
      ops := ops + [ChangeOp(Run(Knowledge(Hash(p[0], salt), []), ops).current.password, p[n], true, salt)];
    }
  }

  lemma {:induction false} NewPasswordIsUnused(p: seq<string>, n: nat, salt: int)
    requires 0 < n < |p| && Distinct(p)
    ensures forall h <- FirstSix(Reversed(p, n - 1, salt)) :: h.password != p[n]
  {
    hide Reversed;
    var used := Reversed(p, n - 1, salt);
    ReversedMeaning(p, n - 1, salt);
    forall h <- FirstSix(used) ensures h.password != p[n] {
      var j :| 0 <= j < |FirstSix(used)| && FirstSix(used)[j] == h;
      assert h == Hash(p[n - 1 - j], salt);
    }
  }

  /** Seven is the most that five rows guarantee: the eighth password may be the first again. */
  lemma {:induction false} EighthMayRepeat(p: seq<string>, salt: int) returns (ops: seq<Op>)
    requires |p| == 7 && Distinct(p)
    ensures |ops| == 7 && forall op <- ops :: op.ChangeOp?
    ensures Passwords(Knowledge(Hash(p[0], salt), []), ops) == [Hash(p[0], salt)] + Reversed(p, 6, salt)
    ensures |Reversed(p, 6, salt)| == 7 && Reversed(p, 6, salt)[6] == Hash(p[0], salt)
  {
    hide Passwords, Run, Reversed;
    var k := Knowledge(Hash(p[0], salt), []);
    ops := DifferentPasswords(p, 6, salt);
    ReversedMeaning(p, 6, salt);
    var used := Reversed(p, 6, salt);
    forall h <- FirstSix(used) ensures h.password != p[0] {
      var j :| 0 <= j < |FirstSix(used)| && FirstSix(used)[j] == h;
      assert h == Hash(p[6 - j], salt);
    }
    OneMoreChange(k.current, ops, p[0], salt);
    ops := ops + [ChangeOp(Run(k, ops).current.password, p[0], true, salt)];
  }

  // ----- Every outcome, field by field -----

  /** Exactly when a change is refused why: policy first, then the current password, then reuse. */
  lemma {:induction false} ChangeOutcomes(
    k: Knowledge, currentPassword: string, newPassword: string, policyOk: bool, salt: int)
    ensures var (after, failure) := Change(k, currentPassword, newPassword, policyOk, salt);
            var correct := currentPassword == k.current.password;
            var used := newPassword == k.current.password
                        || exists i :: 0 <= i < |k.remembered| && k.remembered[i].password == newPassword;
      && (failure == Some(PolicyViolated) <==> !policyOk)
      && (failure == Some(WrongPassword) <==> policyOk && !correct)
      && (failure == Some(Reused) <==> policyOk && correct && used)
      && (failure == None <==> policyOk && correct && !used)
      && (failure.Some? ==> after == k)
      && (failure.None? ==>
            && after.current == Hash(newPassword, salt)
            && |after.remembered| == (if |k.remembered| >= 4 then 5 else |k.remembered| + 1)
            && after.remembered[0] == k.current
            && forall i :: 1 <= i < |after.remembered| ==> after.remembered[i] == k.remembered[i - 1])
  {
    if exists h <- k.remembered :: Matches(newPassword, h) {
      var h :| h in k.remembered && Matches(newPassword, h);
      var i :| 0 <= i < |k.remembered| && k.remembered[i] == h;
      assert k.remembered[i].password == newPassword;
    }
    if i :| 0 <= i < |k.remembered| && k.remembered[i].password == newPassword {
      assert k.remembered[i] in k.remembered && Matches(newPassword, k.remembered[i]);
    }
  }

  /** A reset needs the policy alone, replaces the current password and leaves the history. */
  lemma {:induction false} ResetOutcomes(k: Knowledge, newPassword: string, policyOk: bool, salt: int)
    ensures var (after, failure) := Reset(k, newPassword, policyOk, salt);
      && failure == (if policyOk then None else Some(PolicyViolated))
      && after.remembered == k.remembered
      && after.current == if policyOk then Hash(newPassword, salt) else k.current
  {
  }
}
