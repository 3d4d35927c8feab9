/**
 * The balance backfill: reads (account, token) records from an export file, sends their
 * pairs on in batches, asks the RPC for each pair's balance and writes the balances to the
 * store set-if-absent, so that a field that already has a value keeps it, whoever wrote it.
 */
module Backfill {
  import opened Wrappers
  import opened Text
  import opened RedisStore

  /** One line of the export file, split on spaces: column 0 is the account, column 1 the token. */
  type Record = seq<string>

  // ---------------------------------------------------------------- pairs

  /** `format!("{}:{}", token_id, account_id)`: the token comes first. */
  function Encode(tokenId: string, accountId: string): string {
    tokenId + ":" + accountId
  }

  /** `split_once(':')` recovers what `Encode` joined, as long as the token has no colon. */
  lemma DecodeEncode(tokenId: string, accountId: string)
    requires ':' !in tokenId
    ensures SplitOnce(Encode(tokenId, accountId), ':') == Some((tokenId, accountId))
  {
    assert Encode(tokenId, accountId) == tokenId + [':'] + accountId;
    SplitOnceJoin(tokenId, ':', accountId);
  }

  /** Two colon-free tokens give the same pair only with the same account. */
  lemma EncodeInjective(t1: string, a1: string, t2: string, a2: string)
    requires ':' !in t1 && ':' !in t2
    requires Encode(t1, a1) == Encode(t2, a2)
    ensures t1 == t2 && a1 == a2
  {
    DecodeEncode(t1, a1);
    DecodeEncode(t2, a2);
  }

  // ---------------------------------------------------------------- the reader

  /**
   * A record the reader takes: it has as many columns as the first record (the CSV reader
   * is not flexible, so any other count is a read error) and at least the two it indexes.
   */
  predicate Readable(width: nat, r: Record) {
    |r| == width && |r| >= 2
  }

  /** The encoded pairs of records the reader takes, in record order. */
  function EncodeRecords(records: seq<Record>): (pairs: seq<string>)
    requires forall i :: 0 <= i < |records| ==> |records[i]| >= 2
    ensures |pairs| == |records|
    ensures forall i {:trigger pairs[i]} :: 0 <= i < |records| ==> pairs[i] == Encode(records[i][1], records[i][0])
    decreases |records|
  {
    if |records| == 0 then []
    else
      var last := records[|records| - 1];
      EncodeRecords(records[..|records| - 1]) + [Encode(last[1], last[0])]
  }

  function ReadableFrom(records: seq<Record>, width: nat, i: nat): (n: nat)
    requires i <= |records|
    ensures i <= n <= |records|
    ensures forall j :: i <= j < n ==> |records[j]| == width && |records[j]| >= 2
    ensures n < |records| ==> !Readable(width, records[n])
    decreases |records| - i
  {
    if i == |records| || !Readable(width, records[i]) then i else ReadableFrom(records, width, i + 1)
  }

  /**
   * How many records the reader gets through: it stops at the first record it cannot take,
   * where `expect` ends the reader task and with it the stream of batches.
   */
  function ReadablePrefix(records: seq<Record>): (n: nat)
    ensures n <= |records|
    ensures forall i :: 0 <= i < n ==> |records[i]| == |records[0]| && |records[i]| >= 2
    ensures n < |records| ==> !Readable(|records[0]|, records[n])
  {
    if |records| == 0 then 0 else ReadableFrom(records, |records[0]|, 0)
  }

  /** The reader stops where the first record it cannot take is, or at the end. */
  lemma ReadablePrefixAt(records: seq<Record>, n: nat)
    requires n <= |records|
    requires forall j :: 0 <= j < n ==> |records[j]| == |records[0]| && |records[j]| >= 2
    requires n < |records| ==> !Readable(|records[0]|, records[n])
    ensures n == ReadablePrefix(records)
  {
  }

  /** All batches joined, in order. */
  function Flatten(batches: seq<seq<string>>): seq<string>
    decreases |batches|
  {
    if |batches| == 0 then [] else batches[0] + Flatten(batches[1..])
  }

  lemma {:induction false} FlattenAppend(a: seq<seq<string>>, b: seq<seq<string>>)
    ensures Flatten(a + b) == Flatten(a) + Flatten(b)
    decreases |a|
  {
    if |a| == 0 {
      assert a + b == b;
    } else {
      assert (a + b)[1..] == a[1..] + b;
      FlattenAppend(a[1..], b);
    }
  }

  /** The batches the reader sends as written: full batches only, in order. */
  function FullChunks(pairs: seq<string>): (chunks: seq<seq<string>>)
    ensures |chunks| == |pairs| / 1000
    ensures forall j :: 0 <= j < |chunks| ==> |chunks[j]| == 1000
    decreases |pairs|
  {
    if |pairs| < 1000 then [] else [pairs[..1000]] + FullChunks(pairs[1000..])
  }

  /** Full batches carry exactly the pairs before the last partial batch. */
  lemma {:induction false} FlattenFullChunks(pairs: seq<string>)
    ensures Flatten(FullChunks(pairs)) == pairs[..|pairs| - |pairs| % 1000]
    decreases |pairs|
  {
    if |pairs| >= 1000 {
      var rest := pairs[1000..];
      FlattenFullChunks(rest);
      var chunks := FullChunks(pairs);
      assert chunks[0] == pairs[..1000] && chunks[1..] == FullChunks(rest);
      assert |rest| % 1000 == |pairs| % 1000;
      assert pairs[..1000] + rest[..|rest| - |rest| % 1000] == pairs[..|pairs| - |pairs| % 1000];
    }
  }

  /** Reading one more pair completes a batch exactly when the count reaches a multiple of `1000`. */
  lemma {:induction false} FullChunksSnoc(pairs: seq<string>, x: string)
    ensures (|pairs| + 1) % 1000 != 0 ==> FullChunks(pairs + [x]) == FullChunks(pairs)
    ensures (|pairs| + 1) % 1000 == 0 ==>
      FullChunks(pairs + [x]) == FullChunks(pairs) + [(pairs + [x])[|pairs| + 1 - 1000..]]
    decreases |pairs|
  {
    var longer := pairs + [x];
    if |pairs| + 1 < 1000 {
    } else if |pairs| + 1 == 1000 {
      assert longer[1000..] == [];
      assert longer[..1000] == longer[0..];
    } else {
      var rest := pairs[1000..];
      FullChunksSnoc(rest, x);
      assert longer[..1000] == pairs[..1000];
      assert longer[1000..] == rest + [x];
      assert (|rest| + 1) % 1000 == (|pairs| + 1) % 1000;
      if (|pairs| + 1) % 1000 == 0 {
        assert (rest + [x])[|rest| + 1 - 1000..] == longer[|pairs| + 1 - 1000..];
      }
    }
  }

  /** Every pair read, in batches of at most `1000`: the batching the reader evidently intends. */
  function AllChunks(pairs: seq<string>): (chunks: seq<seq<string>>)
    ensures forall j :: 0 <= j < |chunks| ==> 0 < |chunks[j]| <= 1000
  {
    FullChunks(pairs) + (if |pairs| % 1000 == 0 then [] else [pairs[|pairs| - |pairs| % 1000..]])
  }

  /** With the last partial batch sent too, the batches carry every pair read, in order. */
  lemma AllChunksCarryEverything(pairs: seq<string>)
    ensures Flatten(AllChunks(pairs)) == pairs
  {
    var cut := |pairs| - |pairs| % 1000;
    var full := FullChunks(pairs);
    FlattenFullChunks(pairs);
    assert Flatten(full) == pairs[..cut];
    if |pairs| % 1000 == 0 {
      assert AllChunks(pairs) == full + [] == full;
      assert pairs[..cut] == pairs;
    } else {
      var last := pairs[cut..];
      assert AllChunks(pairs) == full + [last];
      FlattenAppend(full, [last]);
      assert Flatten([last]) == last + Flatten([]) == last;
      assert pairs[..cut] + last == pairs;
    }
  }

  /** An export of a single record sends no batch at all as written. */
  lemma ShortExportSendsNothing()
    ensures var records := [["alice.near", "usdc.near"]];
      && ReadablePrefix(records) == 1
      && FullChunks(EncodeRecords(records[..ReadablePrefix(records)])) == []
      && AllChunks(EncodeRecords(records[..ReadablePrefix(records)])) == [["usdc.near:alice.near"]]
  {
    var records := [["alice.near", "usdc.near"]];
    assert ReadableFrom(records, 2, 1) == 1;
    assert records[..1] == records;
    assert Encode("usdc.near", "alice.near") == "usdc.near:alice.near";
  }

  lemma EncodeRecordsStep(records: seq<Record>, i: nat)
    requires i < |records|
    requires forall j :: 0 <= j <= i ==> |records[j]| >= 2
    ensures EncodeRecords(records[..i + 1]) == EncodeRecords(records[..i]) + [Encode(records[i][1], records[i][0])]
  {
    assert records[..i + 1][..i] == records[..i];
  }

  /** Taking record `n` either completes a batch or adds its pair to the pending ones. */
  lemma ReadStep(records: seq<Record>, n: nat, batches: seq<seq<string>>, pending: seq<string>)
    requires n < |records| && |records[n]| >= 2
    requires forall j :: 0 <= j < n ==> |records[j]| >= 2
    requires n == 1000 * |batches| + |pending| && |pending| < 1000
    requires batches == FullChunks(EncodeRecords(records[..n]))
    requires pending == EncodeRecords(records[..n])[1000 * |batches|..]
    ensures var pair := Encode(records[n][1], records[n][0]);
      var e := EncodeRecords(records[..n + 1]);
      && (|pending| + 1 == 1000 ==> FullChunks(e) == batches + [pending + [pair]] && e[1000 * (|batches| + 1)..] == [])
      && (|pending| + 1 < 1000 ==> FullChunks(e) == batches && e[1000 * |batches|..] == pending + [pair])
  {
    var pair := Encode(records[n][1], records[n][0]);
    var done := EncodeRecords(records[..n]);
    EncodeRecordsStep(records, n);
    FullChunksSnoc(done, pair);
    assert (done + [pair])[1000 * |batches|..] == pending + [pair];
  }

  /**
   * The loop of `start`: encodes each record it takes and sends a batch each time 1000
   * pairs have accumulated. Returns the batches sent, the pairs still pending when the
   * loop ends, and the number of records taken.
   */
  method ReadLoop(records: seq<Record>) returns (batches: seq<seq<string>>, pending: seq<string>, n: nat)
    ensures n == ReadablePrefix(records)
    ensures batches == FullChunks(EncodeRecords(records[..n]))
    ensures pending == EncodeRecords(records[..n])[1000 * |batches|..] && |pending| < 1000
  {
    batches := [];
    pending := [];
    n := 0;
    while n < |records|
      invariant n <= |records|
      invariant forall j :: 0 <= j < n ==> |records[j]| == |records[0]| && |records[j]| >= 2
      invariant n == 1000 * |batches| + |pending| && |pending| < 1000
      invariant batches == FullChunks(EncodeRecords(records[..n]))
      invariant pending == EncodeRecords(records[..n])[1000 * |batches|..]
    {
      var record := records[n];
      if |record| != |records[0]| {
        break;  // unequal record lengths: a read error, and `expect` ends the reader
      }
      if |record| < 2 {
        break;  // `Missing token_id`
      }
      var tokenId := record[1];
      var accountId := record[0];
      ReadStep(records, n, batches, pending);
      pending := pending + [Encode(tokenId, accountId)];
      n := n + 1;
      if |pending| == 1000 {
        batches := batches + [pending];
        pending := [];
      }
    }
    ReadablePrefixAt(records, n);
  }

  /** The reader of `start` as written: the pairs pending when the loop ends are never sent. */
  method ReadBatches(records: seq<Record>) returns (batches: seq<seq<string>>)
    ensures batches == FullChunks(EncodeRecords(records[..ReadablePrefix(records)]))
  {
    var pending, n;
    batches, pending, n := ReadLoop(records);
  }

  /** The reader with the pending pairs sent as one last batch. */
  method ReadAllBatches(records: seq<Record>) returns (batches: seq<seq<string>>)
    ensures batches == AllChunks(EncodeRecords(records[..ReadablePrefix(records)]))
  {
    var pending, n;
    batches, pending, n := ReadLoop(records);
    ghost var pairs := EncodeRecords(records[..n]);
    assert |pairs| - |pairs| % 1000 == 1000 * |batches|;
    if |pending| > 0 {
      batches := batches + [pending];
    }
  }

  // ---------------------------------------------------------------- tasks

  /** The RPC request for one pair; the backfill only asks for the latest balance. */
  datatype RpcTask = FtPair(blockHeight: Option<nat>, tokenId: string, accountId: string)

  function DecodeTask(pair: string): (r: Option<RpcTask>)
    ensures r.Some? <==> ':' in pair
    ensures r.Some? ==>
      r.value.blockHeight.None? && ':' !in r.value.tokenId && Encode(r.value.tokenId, r.value.accountId) == pair
  {
    match SplitOnce(pair, ':')
    case None => None
    case Some((t, a)) => Some(FtPair(None, t, a))
  }

  /** Every pair of the batch has a colon, so that no `unwrap` panics. */
  predicate AllDecode(pairs: seq<string>) {
    forall i :: 0 <= i < |pairs| ==> ':' in pairs[i]
  }

  /** The tasks of one batch, in pair order; `None` where a pair without a colon panics the `unwrap`. */
  function MakeTasks(pairs: seq<string>): Option<seq<RpcTask>> {
    if AllDecode(pairs)
    then Some(seq(|pairs|, i requires 0 <= i < |pairs| && ':' in pairs[i] => DecodeTask(pairs[i]).value))
    else None
  }

  /**
   * A batch decodes exactly when every pair has a colon, and then each task holds the
   * token before the first colon and the account after it.
   */
  lemma MakeTasksDecodes(pairs: seq<string>)
    ensures var r := MakeTasks(pairs);
      && (r.Some? <==> forall i :: 0 <= i < |pairs| ==> ':' in pairs[i])
      && (r.Some? ==> |r.value| == |pairs|)
      && (r.Some? ==> forall i :: 0 <= i < |pairs| ==>
            r.value[i].blockHeight.None? && ':' !in r.value[i].tokenId
            && Encode(r.value[i].tokenId, r.value[i].accountId) == pairs[i])
  {
    if AllDecode(pairs) {
      var r := MakeTasks(pairs).value;
      forall i | 0 <= i < |pairs|
        ensures r[i].blockHeight.None? && ':' !in r[i].tokenId && Encode(r[i].tokenId, r[i].accountId) == pairs[i]
      {
        assert r[i] == DecodeTask(pairs[i]).value;
      }
    }
  }

  /** The tasks of two batches joined are the two batches' tasks joined. */
  lemma MakeTasksAppend(a: seq<string>, b: seq<string>)
    ensures MakeTasks(a + b) ==
      if MakeTasks(a).Some? && MakeTasks(b).Some? then Some(MakeTasks(a).value + MakeTasks(b).value) else None
  {
    var ab := a + b;
    assert AllDecode(ab) <==> AllDecode(a) && AllDecode(b) by {
      if AllDecode(ab) {
        forall i | 0 <= i < |a| ensures ':' in a[i] { assert a[i] == ab[i]; }
        forall i | 0 <= i < |b| ensures ':' in b[i] { assert b[i] == ab[|a| + i]; }
      }
      if AllDecode(a) && AllDecode(b) {
        forall i | 0 <= i < |ab| ensures ':' in ab[i] {
          if i < |a| { assert ab[i] == a[i]; } else { assert ab[i] == b[i - |a|]; }
        }
      }
    }
    if AllDecode(ab) {
      var whole, parts := MakeTasks(ab).value, MakeTasks(a).value + MakeTasks(b).value;
      forall i | 0 <= i < |ab| ensures whole[i] == parts[i] {
        if i < |a| { assert ab[i] == a[i]; } else { assert ab[i] == b[i - |a|]; }
      }
      assert whole == parts;
    }
  }

  /** Records whose tokens have no colon become exactly the tasks for their token and account. */
  lemma RecordTasks(records: seq<Record>)
    requires forall i :: 0 <= i < |records| ==> |records[i]| >= 2 && ':' !in records[i][1]
    ensures var tasks := MakeTasks(EncodeRecords(records));
      && tasks.Some? && |tasks.value| == |records|
      && forall i :: 0 <= i < |records| ==> tasks.value[i] == FtPair(None, records[i][1], records[i][0])
  {
    var pairs := EncodeRecords(records);
    forall i | 0 <= i < |pairs| ensures ':' in pairs[i] {
      assert pairs[i][|records[i][1]|] == ':';
    }
    MakeTasksDecodes(pairs);
    var tasks := MakeTasks(pairs).value;
    forall i | 0 <= i < |records| ensures tasks[i] == FtPair(None, records[i][1], records[i][0]) {
      EncodeInjective(tasks[i].tokenId, tasks[i].accountId, records[i][1], records[i][0]);
    }
  }

  // ---------------------------------------------------------------- the RPC

  /** A task with the balance the RPC returned for it, if any. */
  datatype ResultPair = ResultPair(task: RpcTask, result: Option<nat>)

  /** `fetch_from_rpc`, with the RPC itself a parameter: one result per task, in task order. */
  function Fetch(tasks: seq<RpcTask>, balanceOf: RpcTask -> Option<nat>): (results: seq<ResultPair>)
    ensures |results| == |tasks|
    ensures forall i :: 0 <= i < |tasks| ==> results[i].task == tasks[i] && results[i].result == balanceOf(tasks[i])
  {
    seq(|tasks|, i requires 0 <= i < |tasks| => ResultPair(tasks[i], balanceOf(tasks[i])))
  }

  lemma FetchAppend(a: seq<RpcTask>, b: seq<RpcTask>, balanceOf: RpcTask -> Option<nat>)
    ensures Fetch(a + b, balanceOf) == Fetch(a, balanceOf) + Fetch(b, balanceOf)
  {
    var whole, parts := Fetch(a + b, balanceOf), Fetch(a, balanceOf) + Fetch(b, balanceOf);
    forall i | 0 <= i < |whole| ensures whole[i] == parts[i] {
      if i >= |a| {
        assert (a + b)[i] == b[i - |a|];
      }
    }
  }

  // ---------------------------------------------------------------- the writes

  /** `format!("b:{}", token_id)` */
  function BalanceKey(tokenId: string): string {
    "b:" + tokenId
  }

  /** The write for one result: an HSETNX of its balance, or nothing when it has none. */
  function BalanceWrite(r: ResultPair): seq<Command> {
    if r.result.None? then [] else [HSetNx(BalanceKey(r.task.tokenId), r.task.accountId, NatToString(r.result.value))]
  }

  /** The HSETNX commands of the pipeline, in result order; results without a balance are skipped. */
  function BalanceWrites(results: seq<ResultPair>): seq<Command>
    decreases |results|
  {
    if |results| == 0 then [] else BalanceWrite(results[0]) + BalanceWrites(results[1..])
  }

  lemma {:induction false} BalanceWritesAppend(a: seq<ResultPair>, b: seq<ResultPair>)
    ensures BalanceWrites(a + b) == BalanceWrites(a) + BalanceWrites(b)
    decreases |a|
  {
    if |a| == 0 {
      assert a + b == b;
    } else {
      assert (a + b)[0] == a[0] && (a + b)[1..] == a[1..] + b;
      BalanceWritesAppend(a[1..], b);
    }
  }

  lemma BalanceWritesSnoc(results: seq<ResultPair>, i: nat)
    requires i < |results|
    ensures BalanceWrites(results[..i + 1]) == BalanceWrites(results[..i]) + BalanceWrite(results[i])
  {
    assert results[..i + 1] == results[..i] + [results[i]];
    BalanceWritesAppend(results[..i], [results[i]]);
    assert BalanceWrites([results[i]]) == BalanceWrite(results[i]) + BalanceWrites([]);
  }

  /** The rendered balance of the first result for token key `k` and account `f`, if any. */
  function FirstBalance(results: seq<ResultPair>, k: string, f: string): Option<string>
    decreases |results|
  {
    if |results| == 0 then None
    else
      var r := results[0];
      if r.result.Some? && BalanceKey(r.task.tokenId) == k && r.task.accountId == f
      then Some(NatToString(r.result.value))
      else FirstBalance(results[1..], k, f)
  }

  /** The pipeline sets each balance field at most once, if absent, to the first balance for it. */
  lemma {:induction false} BalanceWritesEffect(results: seq<ResultPair>, loc: Loc)
    ensures PipelineEffect(BalanceWrites(results), loc) ==
      if loc.Field? && FirstBalance(results, loc.key, loc.field).Some?
      then IfAbsent(FirstBalance(results, loc.key, loc.field).value)
      else Keep
    decreases |results|
  {
    if |results| > 0 {
      var r := results[0];
      var rest := BalanceWrites(results[1..]);
      BalanceWritesEffect(results[1..], loc);
      if r.result.Some? {
        var c := HSetNx(BalanceKey(r.task.tokenId), r.task.accountId, NatToString(r.result.value));
        assert BalanceWrites(results) == [c] + rest;
        assert ([c] + rest)[0] == c && ([c] + rest)[1..] == rest;
      } else {
        assert BalanceWrites(results) == [] + rest == rest;
        if loc.Field? {
          assert FirstBalance(results, loc.key, loc.field) == FirstBalance(results[1..], loc.key, loc.field);
        }
      }
    }
  }

  /**
   * After the pipeline a balance field that was absent holds the first balance fetched for
   * it; a field already present, and every other location, is left as it was.
   */
  lemma BalanceCommitLookup(s: Store, results: seq<ResultPair>, loc: Loc)
    ensures Lookup(Run(s, BalanceWrites(results)), loc) ==
      if loc.Field? && Lookup(s, loc).None? then FirstBalance(results, loc.key, loc.field) else Lookup(s, loc)
  {
    RunLookup(s, BalanceWrites(results), loc);
    BalanceWritesEffect(results, loc);
  }

  /**
   * The pipeline built inside the retried closure of `update_balances`: one HSETNX per result
   * that has a balance, in result order.
   */
  method BuildBalancePipe(results: seq<ResultPair>) returns (pipe: seq<Command>)
    ensures pipe == BalanceWrites(results)
  {
    pipe := [];
    for i := 0 to |results|
      invariant pipe == BalanceWrites(results[..i])
    {
      BalanceWritesSnoc(results, i);
      var r := results[i];
      if r.result.None? {
        assert BalanceWrite(r) == [];
        continue;
      }
      var FtPair(_, tokenId, accountId) := r.task;
      var write := HSetNx(BalanceKey(tokenId), accountId, NatToString(r.result.value));
      assert BalanceWrite(r) == [write];
      pipe := pipe + [write];
    }
    assert results[..|results|] == results;
  }

  // ---------------------------------------------------------------- one batch, all batches

  /**
   * `update_balances`: decodes the batch into tasks, fetches the balances and runs the
   * HSETNX pipeline. `ok` is false where the `unwrap` of a pair without a colon panics,
   * before anything is written.
   */
  method UpdateBalances(s: Store, pairs: seq<string>, balanceOf: RpcTask -> Option<nat>)
    returns (next: Store, ok: bool)
    ensures ok <==> MakeTasks(pairs).Some?
    ensures !ok ==> next == s
    ensures ok ==> next == Run(s, BalanceWrites(Fetch(MakeTasks(pairs).value, balanceOf)))
    ensures ok ==> forall loc :: (Lookup(next, loc) ==
      if loc.Field? && Lookup(s, loc).None?
      then FirstBalance(Fetch(MakeTasks(pairs).value, balanceOf), loc.key, loc.field)
      else Lookup(s, loc))
  {
    var tasks := MakeTasks(pairs);
    if tasks.None? {
      return s, false;
    }
    var results := Fetch(tasks.value, balanceOf);
    var pipe := BuildBalancePipe(results);
    next, ok := Run(s, pipe), true;
    forall loc ensures Lookup(next, loc) ==
      if loc.Field? && Lookup(s, loc).None? then FirstBalance(results, loc.key, loc.field) else Lookup(s, loc)
    {
      BalanceCommitLookup(s, results, loc);
    }
  }

  /** The writes of all the given batches together, provided every pair in them decodes. */
  function WritesOf(batches: seq<seq<string>>, balanceOf: RpcTask -> Option<nat>): seq<Command>
    requires MakeTasks(Flatten(batches)).Some?
  {
    BalanceWrites(Fetch(MakeTasks(Flatten(batches)).value, balanceOf))
  }

  lemma BatchStep(s: Store, batches: seq<seq<string>>, i: nat, balanceOf: RpcTask -> Option<nat>)
    requires i < |batches|
    ensures Flatten(batches[..i + 1]) == Flatten(batches[..i]) + batches[i]
    ensures MakeTasks(Flatten(batches[..i])).Some? && MakeTasks(batches[i]).Some? ==>
      && MakeTasks(Flatten(batches[..i + 1])).Some?
      && Run(Run(s, WritesOf(batches[..i], balanceOf)), BalanceWrites(Fetch(MakeTasks(batches[i]).value, balanceOf)))
        == Run(s, WritesOf(batches[..i + 1], balanceOf))
  {
    assert batches[..i + 1] == batches[..i] + [batches[i]];
    FlattenAppend(batches[..i], [batches[i]]);
    assert Flatten([batches[i]]) == batches[i] + [];
    var front, back := Flatten(batches[..i]), batches[i];
    MakeTasksAppend(front, back);
    if MakeTasks(front).Some? && MakeTasks(back).Some? {
      var ta, tb := MakeTasks(front).value, MakeTasks(back).value;
      FetchAppend(ta, tb, balanceOf);
      BalanceWritesAppend(Fetch(ta, balanceOf), Fetch(tb, balanceOf));
      RunAppend(s, BalanceWrites(Fetch(ta, balanceOf)), BalanceWrites(Fetch(tb, balanceOf)));
    }
  }

  /**
   * `process_balances`: runs `update_balances` on each batch in turn and counts the pairs.
   * When a batch fails to decode the process panics: the batches before it have been
   * written and nothing after it is.
   */
  method ProcessBalances(s: Store, batches: seq<seq<string>>, balanceOf: RpcTask -> Option<nat>)
    returns (next: Store, totalPairs: nat, ok: bool)
    ensures ok <==> MakeTasks(Flatten(batches)).Some?
    ensures ok ==> totalPairs == |Flatten(batches)| && next == Run(s, WritesOf(batches, balanceOf))
    ensures !ok ==> exists k :: (0 <= k < |batches| && MakeTasks(batches[k]).None?
      && MakeTasks(Flatten(batches[..k])).Some? && next == Run(s, WritesOf(batches[..k], balanceOf)))
  {
    next, totalPairs, ok := s, 0, true;
    var i := 0;
    assert Flatten(batches[..0]) == [];
    while i < |batches|
      invariant i <= |batches|
      invariant MakeTasks(Flatten(batches[..i])).Some?
      invariant totalPairs == |Flatten(batches[..i])|
      invariant next == Run(s, WritesOf(batches[..i], balanceOf))
    {
      var pairs := batches[i];
      BatchStep(s, batches, i, balanceOf);
      totalPairs := totalPairs + |pairs|;
      var stepOk;
      next, stepOk := UpdateBalances(next, pairs, balanceOf);
      if !stepOk {
        assert batches == batches[..i + 1] + batches[i + 1..];
        FlattenAppend(batches[..i + 1], batches[i + 1..]);
        MakeTasksAppend(Flatten(batches[..i + 1]), Flatten(batches[i + 1..]));
        MakeTasksAppend(Flatten(batches[..i]), batches[i]);
        ok := false;
        return;
      }
      i := i + 1;
    }
    assert batches[..i] == batches;
  }

  /**
   * The whole backfill with the last partial batch sent: every pair the reader gets through
   * reaches the store, and the counter ends at their number.
   */
  method Backfill(records: seq<Record>, s: Store, balanceOf: RpcTask -> Option<nat>)
    returns (next: Store, totalPairs: nat)
    ensures var pairs := EncodeRecords(records[..ReadablePrefix(records)]);
      && totalPairs == |pairs| == ReadablePrefix(records)
      && MakeTasks(pairs).Some?
      && next == Run(s, BalanceWrites(Fetch(MakeTasks(pairs).value, balanceOf)))
  {
    var batches := ReadAllBatches(records);
    ghost var pairs := EncodeRecords(records[..ReadablePrefix(records)]);
    AllChunksCarryEverything(pairs);
    forall i | 0 <= i < |pairs| ensures ':' in pairs[i] {
      assert pairs[i][|records[i][1]|] == ':';
    }
    MakeTasksDecodes(pairs);
    var ok;
    next, totalPairs, ok := ProcessBalances(s, batches, balanceOf);
  }
}
