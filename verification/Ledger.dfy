/** The chaincode's ledger, `ledger_contract.ts`, and the client's bounded retry, `fabricClient.ts`.
    SHA-256 is an injective function. */
module Ledger {
  import opened Wrappers

  type Hash = string -> string

  ghost predicate Injective(h: Hash) {
    forall x, y :: h(x) == h(y) ==> x == y
  }

  /** A JSON log: its two named fields (empty when missing) and its text. Equal texts parse alike. */
  datatype Log = Log(runId: string, timestamp: string, text: string)

  type World = map<string, Log>

  datatype Row = Row(id: string, timestamp: string, logJson: string, hash: string)

  function KeyOf(h: Hash, runId: string, timestamp: string): string {
    h(runId + "|" + timestamp)
  }

  predicate WellFormed(log: Log) {
    log.runId != "" && log.timestamp != ""
  }

  /** `LogEvent` puts the log under the hash of its run id and timestamp. */
  function Put(h: Hash, w: World, log: Log): World {
    if WellFormed(log) then w[KeyOf(h, log.runId, log.timestamp) := log] else w
  }

  function PutAll(h: Hash, w: World, logs: seq<Log>): World {
    if logs == [] then w else Put(h, PutAll(h, w, logs[..|logs| - 1]), logs[|logs| - 1])
  }

  // ----- The reference: the last writer for each pair ----------------------------------------------

  datatype Pair = Pair(runId: string, timestamp: string)

  /** The last well-formed log of this run id and timestamp. */
  function Last(logs: seq<Log>, p: Pair): Option<Log> {
    if logs == [] then None
    else
      var log := logs[|logs| - 1];
      if WellFormed(log) && Pair(log.runId, log.timestamp) == p then Some(log)
      else Last(logs[..|logs| - 1], p)
  }

  predicate SeparatorFree(runId: string) {
    '|' !in runId
  }

  /** Joined by the separator, a separator-free run id and a timestamp can be told apart again. */
  lemma JoinInjective(r: string, t: string, r': string, t': string)
    requires SeparatorFree(r) && SeparatorFree(r')
    requires r + "|" + t == r' + "|" + t'
    ensures r == r' && t == t'
  {
    var s, s' := r + "|" + t, r' + "|" + t';
    assert s == s';
    assert s[|r|] == '|' && s'[|r'|] == '|';
    assert forall i :: 0 <= i < |r| ==> s[i] == r[i] && s[i] != '|';
    assert forall i :: 0 <= i < |r'| ==> s'[i] == r'[i] && s'[i] != '|';
    assert r == s[..|r|] && r' == s'[..|r'|];
    assert t == s[|r| + 1..] && t' == s'[|r'| + 1..];
  }

  /** After any sequence of logs with separator-free run ids, the entry of each pair is the last log of
      that pair, and there are no other entries. */
  lemma {:induction false} LedgerIsLastWriter(h: Hash, logs: seq<Log>, p: Pair)
    requires Injective(h) && SeparatorFree(p.runId)
    requires forall i :: 0 <= i < |logs| ==> SeparatorFree(logs[i].runId)
    ensures var w, key := PutAll(h, map[], logs), KeyOf(h, p.runId, p.timestamp);
            (if key in w then Some(w[key]) else None) == Last(logs, p)
    decreases |logs|
  {
    if logs == [] {
    } else {
      var n := |logs| - 1;
      var log := logs[n];
      LedgerIsLastWriter(h, logs[..n], p);
      if WellFormed(log) && KeyOf(h, log.runId, log.timestamp) == KeyOf(h, p.runId, p.timestamp) {
        JoinInjective(log.runId, log.timestamp, p.runId, p.timestamp);
      }
    }
  }

  lemma {:induction false} KeysComeFromLogs(h: Hash, logs: seq<Log>, key: string)
    requires key in PutAll(h, map[], logs)
    ensures var log := PutAll(h, map[], logs)[key];
            log in logs && WellFormed(log) && key == KeyOf(h, log.runId, log.timestamp)
    decreases |logs|
  {
    var n := |logs| - 1;
    if logs != [] && key in PutAll(h, map[], logs[..n])
       && PutAll(h, map[], logs)[key] == PutAll(h, map[], logs[..n])[key] {
      KeysComeFromLogs(h, logs[..n], key);
    }
  }

  function Verify(h: Hash, w: World, key: string, provided: string): Result<bool> {
    if key !in w then Err("No record for key") else Ok(h(w[key].text) == provided)
  }

  /** `VerifyHash` accepts, for the key of a pair, exactly the hash of that pair's last log. */
  lemma VerifyAcceptsLastIff(h: Hash, logs: seq<Log>, p: Pair, text: string)
    requires Injective(h) && SeparatorFree(p.runId)
    requires forall i :: 0 <= i < |logs| ==> SeparatorFree(logs[i].runId)
    ensures Verify(h, PutAll(h, map[], logs), KeyOf(h, p.runId, p.timestamp), h(text)) == Ok(true) <==>
            Last(logs, p).Some? && Last(logs, p).value.text == text
    ensures Verify(h, PutAll(h, map[], logs), KeyOf(h, p.runId, p.timestamp), h(text)).Err? <==> Last(logs, p).None?
  {
    LedgerIsLastWriter(h, logs, p);
  }

  /** Two pairs share an entry exactly when their joined texts are equal; for separator-free run ids that
      means they are the same pair. */
  lemma SharedEntryIff(h: Hash, p: Pair, q: Pair)
    requires Injective(h)
    ensures KeyOf(h, p.runId, p.timestamp) == KeyOf(h, q.runId, q.timestamp) <==> Joined(p) == Joined(q)
    ensures SeparatorFree(p.runId) && SeparatorFree(q.runId) ==>
              (KeyOf(h, p.runId, p.timestamp) == KeyOf(h, q.runId, q.timestamp) <==> p == q)
  {
    if SeparatorFree(p.runId) && SeparatorFree(q.runId) && Joined(p) == Joined(q) {
      JoinInjective(p.runId, p.timestamp, q.runId, q.timestamp);
    }
  }

  // ----- Exactly when it is the last writer's ------------------------------------------------------

  function Joined(p: Pair): string {
    p.runId + "|" + p.timestamp
  }

  function PairOf(log: Log): Pair {
    Pair(log.runId, log.timestamp)
  }

  function Entry(h: Hash, w: World, p: Pair): Option<Log> {
    if KeyOf(h, p.runId, p.timestamp) in w then Some(w[KeyOf(h, p.runId, p.timestamp)]) else None
  }

  /** The last well-formed log whose pair joins to this text. */
  function LastJoined(logs: seq<Log>, text: string): Option<Log> {
    if logs == [] then None
    else
      var log := logs[|logs| - 1];
      if WellFormed(log) && Joined(PairOf(log)) == text then Some(log) else LastJoined(logs[..|logs| - 1], text)
  }

  /** Logs of different pairs do not join to the same text. */
  predicate Apart(logs: seq<Log>) {
    forall i, j ::
      (&& 0 <= i < |logs| && 0 <= j < |logs| && WellFormed(logs[i]) && WellFormed(logs[j])
       && Joined(PairOf(logs[i])) == Joined(PairOf(logs[j]))) ==>
        PairOf(logs[i]) == PairOf(logs[j])
  }

  /** Every pair that was logged has its last log as its entry. */
  predicate LastWriterWins(h: Hash, logs: seq<Log>) {
    forall i :: 0 <= i < |logs| && WellFormed(logs[i]) ==>
      Entry(h, PutAll(h, map[], logs), PairOf(logs[i])) == Last(logs, PairOf(logs[i]))
  }

  lemma {:induction false} EntryIsLastJoined(h: Hash, logs: seq<Log>, p: Pair)
    requires Injective(h)
    ensures Entry(h, PutAll(h, map[], logs), p) == LastJoined(logs, Joined(p))
    decreases |logs|
  {
    if logs == [] {
    } else {
      EntryIsLastJoined(h, logs[..|logs| - 1], p);
    }
  }

  lemma {:induction false} LastIsLogged(logs: seq<Log>, i: nat)
    requires i < |logs| && WellFormed(logs[i])
    ensures Last(logs, PairOf(logs[i])).Some? && PairOf(Last(logs, PairOf(logs[i])).value) == PairOf(logs[i])
    ensures Last(logs, PairOf(logs[i])).value in logs
    decreases |logs|
  {
    var n := |logs| - 1;
    if i < n && !(WellFormed(logs[n]) && PairOf(logs[n]) == PairOf(logs[i])) {
      LastIsLogged(logs[..n], i);
    }
  }

  /** Where no other pair joins to its text, the last log of the text is that of the pair. */
  lemma {:induction false} LastJoinedOfPair(logs: seq<Log>, p: Pair)
    requires forall i :: 0 <= i < |logs| && WellFormed(logs[i]) && Joined(PairOf(logs[i])) == Joined(p) ==>
               PairOf(logs[i]) == p
    ensures LastJoined(logs, Joined(p)) == Last(logs, p)
    decreases |logs|
  {
    if logs == [] {
    } else {
      LastJoinedOfPair(logs[..|logs| - 1], p);
    }
  }

  /** After any sequence of logs whatever, every logged pair's entry is its last log exactly when no two
      different pairs among them join to the same text. */
  lemma LastWriterIff(h: Hash, logs: seq<Log>)
    requires Injective(h)
    ensures LastWriterWins(h, logs) <==> Apart(logs)
  {
    forall i | 0 <= i < |logs| && WellFormed(logs[i])
      ensures Entry(h, PutAll(h, map[], logs), PairOf(logs[i])) == LastJoined(logs, Joined(PairOf(logs[i])))
      ensures Apart(logs) ==> LastJoined(logs, Joined(PairOf(logs[i]))) == Last(logs, PairOf(logs[i]))
    {
      EntryIsLastJoined(h, logs, PairOf(logs[i]));
      if Apart(logs) {
        LastJoinedOfPair(logs, PairOf(logs[i]));
      }
    }
    forall i, j | LastWriterWins(h, logs) && 0 <= i < |logs| && 0 <= j < |logs| && WellFormed(logs[i])
                  && WellFormed(logs[j]) && Joined(PairOf(logs[i])) == Joined(PairOf(logs[j]))
      ensures PairOf(logs[i]) == PairOf(logs[j])
    {
      LastIsLogged(logs, i);
      LastIsLogged(logs, j);
    }
  }

  lemma SeparatorFreeApart(logs: seq<Log>)
    requires forall i :: 0 <= i < |logs| ==> SeparatorFree(logs[i].runId)
    ensures Apart(logs)
  {
    forall i, j | 0 <= i < |logs| && 0 <= j < |logs| && Joined(PairOf(logs[i])) == Joined(PairOf(logs[j]))
      ensures PairOf(logs[i]) == PairOf(logs[j])
    {
      JoinInjective(logs[i].runId, logs[i].timestamp, logs[j].runId, logs[j].timestamp);
    }
  }

  /** Without that condition on run ids the last writer of another pair can take the entry over. */
  lemma SeparatorMatters(h: Hash)
    ensures var one, two := Log("a|b", "c", "1"), Log("a", "b|c", "2");
            && Pair(one.runId, one.timestamp) != Pair(two.runId, two.timestamp)
            && PutAll(h, map[], [one, two]) == map[h("a|b|c") := two]
            && Last([one, two], Pair("a|b", "c")) == Some(one)
  {
    var one, two := Log("a|b", "c", "1"), Log("a", "b|c", "2");
    assert "a|b" + "|" + "c" == "a|b|c" && "a" + "|" + "b|c" == "a|b|c";
    assert [one, two][..1] == [one] && [one][..0] == [];
    assert KeyOf(h, one.runId, one.timestamp) == h("a|b|c") == KeyOf(h, two.runId, two.timestamp);
    assert PutAll(h, map[], [one]) == map[h("a|b|c") := one];
    assert PutAll(h, map[], [one, two]) == Put(h, PutAll(h, map[], [one]), two);
    assert Last([one], Pair("a|b", "c")) == Some(one);
  }

  // ----- The export --------------------------------------------------------------------------------

  /** The order of keys in a range query. */
  predicate Less(a: string, b: string) {
    if b == "" then false
    else if a == "" then true
    else a[0] < b[0] || (a[0] == b[0] && Less(a[1..], b[1..]))
  }

  /** At the first place where they differ, the lesser has ended or has the smaller character. */
  predicate DiffersAt(a: string, b: string, k: nat) {
    k <= |a| && k < |b| && a[..k] == b[..k] && (k == |a| || a[k] < b[k])
  }

  lemma {:induction false} LessIff(a: string, b: string)
    ensures Less(a, b) <==> exists k: nat :: DiffersAt(a, b, k)
    decreases |a|
  {
    if b == "" {
    } else if a == "" || a[0] < b[0] {
      assert DiffersAt(a, b, 0);
    } else {
      LessIff(a[1..], b[1..]);
      if a[0] == b[0] && Less(a[1..], b[1..]) {
        var k: nat :| DiffersAt(a[1..], b[1..], k);
        assert a[..k + 1] == [a[0]] + a[1..][..k] && b[..k + 1] == [b[0]] + b[1..][..k];
        assert DiffersAt(a, b, k + 1);
      }
      if k: nat :| DiffersAt(a, b, k) {
        assert a[0] == a[..k][0] == b[..k][0] == b[0];
        assert a[1..][..k - 1] == a[..k][1..] == b[..k][1..] == b[1..][..k - 1];
        assert DiffersAt(a[1..], b[1..], k - 1);
      }
    }
  }

  lemma {:induction false} LessTotal(a: string, b: string)
    ensures Less(a, b) || a == b || Less(b, a)
    decreases |a|
  {
    if a == "" || b == "" || a[0] != b[0] {
    } else {
      LessTotal(a[1..], b[1..]);
      assert a == [a[0]] + a[1..] && b == [b[0]] + b[1..];
    }
  }

  lemma {:induction false} LessTransitive(a: string, b: string, c: string)
    requires Less(a, b) && Less(b, c)
    ensures Less(a, c)
    decreases |a|
  {
    if a == "" || a[0] != b[0] || b[0] != c[0] {
    } else {
      LessTransitive(a[1..], b[1..], c[1..]);
    }
  }

  predicate IsLeast(keys: set<string>, key: string) {
    key in keys && forall k :: k in keys && k != key ==> Less(key, k)
  }

  lemma {:induction false} LeastExists(keys: set<string>) returns (least: string)
    requires keys != {}
    ensures IsLeast(keys, least)
    decreases |keys|
  {
    var key :| key in keys;
    least := key;
    if keys == {key} {
    } else {
      var rest := LeastExists(keys - {key});
      LessTotal(key, rest);
      least := if Less(key, rest) then key else rest;
      forall k | k in keys && k != least ensures Less(least, k) {
        if least == key && k != rest {
          LessTransitive(key, rest, k);
        }
      }
    }
  }

  predicate SortedKeys(keys: seq<string>) {
    forall i, j :: 0 <= i < j < |keys| ==> Less(keys[i], keys[j])
  }

  /** The rows say of each entry its key, its timestamp, its text, and the text's hash. */
  predicate Exports(h: Hash, w: World, rows: seq<Row>) {
    && (forall i :: 0 <= i < |rows| ==>
          && rows[i].id in w
          && rows[i] == Row(rows[i].id, w[rows[i].id].timestamp, w[rows[i].id].text, h(w[rows[i].id].text)))
    && (forall key :: key in w ==> exists i :: 0 <= i < |rows| && rows[i].id == key)
    && (forall i, j :: 0 <= i < j < |rows| ==> Less(rows[i].id, rows[j].id))
  }

  lemma {:induction false} LessIrreflexive(a: string)
    ensures !Less(a, a)
    decreases |a|
  {
    if a == "" {
    } else {
      LessIrreflexive(a[1..]);
    }
  }

  /** The export of what was logged: for each logged pair exactly one row, which holds the text and the
      timestamp of the pair's last log and a hash that verification accepts; and there is no other row. */
  lemma ExportIsLastLogs(h: Hash, logs: seq<Log>, rows: seq<Row>, i: nat)
    requires Injective(h) && Apart(logs) && Exports(h, PutAll(h, map[], logs), rows)
    requires i < |logs| && WellFormed(logs[i])
    ensures Last(logs, PairOf(logs[i])).Some?
    ensures exists k :: ShownOnlyAt(h, rows, k, PairOf(logs[i]), Last(logs, PairOf(logs[i])).value)
  {
    var p, w := PairOf(logs[i]), PutAll(h, map[], logs);
    LastWriterIff(h, logs);
    LastIsLogged(logs, i);
    assert Entry(h, w, p) == Last(logs, p);
    var key := KeyOf(h, p.runId, p.timestamp);
    var k :| 0 <= k < |rows| && rows[k].id == key;
    LessIrreflexive(key);
    assert ShownOnlyAt(h, rows, k, p, Last(logs, p).value);
  }

  predicate ShownOnlyAt(h: Hash, rows: seq<Row>, k: int, p: Pair, log: Log) {
    && 0 <= k < |rows| && RowOf(h, rows[k], p, log)
    && forall l :: 0 <= l < |rows| && l != k ==> rows[l].id != rows[k].id
  }

  /** This row shows this log, under the key of this pair. */
  predicate RowOf(h: Hash, row: Row, p: Pair, log: Log) {
    row == Row(KeyOf(h, p.runId, p.timestamp), p.timestamp, log.text, h(log.text))
  }

  /** Conversely each row shows the last log of a logged pair, and different rows those of different pairs. */
  lemma RowsAreLogged(h: Hash, logs: seq<Log>, rows: seq<Row>, k: nat) returns (log: Log)
    requires Injective(h) && Apart(logs) && Exports(h, PutAll(h, map[], logs), rows) && k < |rows|
    ensures log in logs && WellFormed(log) && Last(logs, PairOf(log)) == Some(log)
            && RowOf(h, rows[k], PairOf(log), log)
    ensures forall l :: 0 <= l < |rows| && l != k ==> rows[l].id != KeyOf(h, log.runId, log.timestamp)
  {
    var w := PutAll(h, map[], logs);
    KeysComeFromLogs(h, logs, rows[k].id);
    log := w[rows[k].id];
    var i :| 0 <= i < |logs| && logs[i] == log;
    LastWriterIff(h, logs);
    assert Entry(h, w, PairOf(log)) == Some(log);
    LessIrreflexive(rows[k].id);
  }

  // ----- Retried submits ---------------------------------------------------------------------------

  /** Submitting a log again right away changes nothing. */
  lemma {:induction false} ResubmitIsIdempotent(h: Hash, w: World, log: Log, n: nat)
    requires n >= 1
    ensures PutAll(h, w, seq(n, _ => log)) == Put(h, w, log)
    decreases n
  {
    var logs := seq(n, _ => log);
    if n == 1 {
      assert logs[..0] == [];
    } else {
      assert logs[..n - 1] == seq(n - 1, _ => log);
      ResubmitIsIdempotent(h, w, log, n - 1);
    }
  }

  /** What one submit does: it may be applied, its reply may be lost, and its error may be transient. */
  datatype Submit = Submit(applied: bool, replied: bool, transient: bool)

  class Contract {
    const h: Hash
    var world: World

    constructor (h: Hash)
      ensures this.h == h && world == map[]
    {
      this.h, world := h, map[];
    }

    /** Refused without a run id or a timestamp; otherwise the entry under the hash of the two, joined. */
    method LogEvent(log: Log) returns (r: Result<string>)
      modifies this
      ensures world == Put(h, old(world), log)
      ensures r.Err? <==> log.runId == "" || log.timestamp == ""
      ensures r.Err? ==> world == old(world) && r.error == "logJson must contain runId and timestamp"
      ensures r.Ok? ==> r.value == h(log.runId + "|" + log.timestamp) && world == old(world)[r.value := log]
    {
      if !WellFormed(log) {
        return Err("logJson must contain runId and timestamp");
      }
      var key := KeyOf(h, log.runId, log.timestamp);
      world := world[key := log];
      r := Ok(key);
    }

    method VerifyHash(key: string, provided: string) returns (r: Result<bool>)
      ensures r == Verify(h, world, key, provided)
      ensures r == if key in world then Ok(h(world[key].text) == provided) else Err("No record for key")
    {
      if key !in world {
        return Err("No record for key");
      }
      r := Ok(h(world[key].text) == provided);
    }

    /** The range query over all keys. */
    method StateByRange() returns (keys: seq<string>)
      ensures SortedKeys(keys) && |keys| == |world|
      ensures forall key :: key in keys <==> key in world
    {
      keys := [];
      var left := world.Keys;
      while left != {}
        invariant left <= world.Keys && |keys| + |left| == |world|
        invariant forall key :: key in world <==> key in keys || key in left
        invariant SortedKeys(keys) && forall i, key :: 0 <= i < |keys| && key in left ==> Less(keys[i], key)
        decreases |left|
      {
        ghost var least := LeastExists(left);
        assert least in left;
        var key :| key in left && forall k :: k in left && k != key ==> Less(key, k);
        keys, left := keys + [key], left - {key};
      }
    }

    /** One row per entry, in the order of the range query. */
    method ExportCSV() returns (rows: seq<Row>)
      ensures Exports(h, world, rows) && |rows| == |world|
    {
      var keys := StateByRange();
      rows := [];
      for k := 0 to |keys|
        invariant |rows| == k
        invariant forall i :: 0 <= i < k ==>
                    rows[i] == Row(keys[i], world[keys[i]].timestamp, world[keys[i]].text, h(world[keys[i]].text))
      {
        assert keys[k] in world;
        var log := world[keys[k]];
        rows := rows + [Row(keys[k], log.timestamp, log.text, h(log.text))];
      }
      forall key | key in world ensures exists i :: 0 <= i < |rows| && rows[i].id == key {
        var i :| 0 <= i < |keys| && keys[i] == key;
        assert rows[i].id == key;
      }
    }

    /** `logEvent` with its retry: up to three submits of one transaction, retried only after a
        transient error. However many of them were applied, the ledger is as after one or none. */
    method SubmitWithRetry(log: Log, submits: nat -> Submit) returns (ok: bool, attempts: nat)
      modifies this
      ensures 1 <= attempts <= 3
      ensures (exists i: nat :: i < attempts && submits(i).applied) ==>
                world == if log.runId == "" || log.timestamp == "" then old(world)
                         else old(world)[h(log.runId + "|" + log.timestamp) := log]
      ensures (forall i: nat :: i < attempts ==> !submits(i).applied) ==> world == old(world)
      ensures ok <==> submits(attempts - 1).replied
      ensures forall i: nat :: i < attempts - 1 ==> !submits(i).replied && submits(i).transient
      ensures !ok ==> attempts == 3 || !submits(attempts - 1).transient
    {
      var attempt := 0;
      while true
        invariant 0 <= attempt <= 2
        invariant (exists i: nat :: i < attempt && submits(i).applied) ==> world == Put(h, old(world), log)
        invariant (forall i: nat :: i < attempt ==> !submits(i).applied) ==> world == old(world)
        invariant forall i: nat :: i < attempt ==> !submits(i).replied && submits(i).transient
        decreases 3 - attempt
      {
        var s := submits(attempt);
        if s.applied {
          var _ := LogEvent(log);
        }
        if s.replied {
          return true, attempt + 1;
        }
        if !(s.transient && attempt < 2) {
          return false, attempt + 1;
        }
        attempt := attempt + 1;
      }
    }
  }
}
