# FT Redis indexer and balance backfill, in Dafny

This project models the two sequential cores of the fastnear compact indexer.

- **The FT Redis indexer** (`src/bin/ft_red.rs`). For each block it extracts the
  `(account, contract)` pairs touched by fungible-token, non-fungible-token and staking
  activity. It groups them under the keys `ft:<account>`, `nf:<account>` and
  `st:<account>`. It commits them as one pipeline: an `HSET` of `(contract, "")` marker fields
  per key, followed by `SET meta:latest_block <height>`. On startup it computes where to resume
  reading the block stream.
- **The balance backfill** (`src/bin/balances_backfill.rs`). It reads `account token` records,
  encodes each one as `token:account` and sends the pairs on in batches of 1000. For every pair
  it asks the RPC for the balance and writes it with `HSETNX b:<token> <account> <balance>`.
  A set-if-absent write leaves a field that already has a value unchanged, whoever wrote it.

The project has six modules:

- **`Wrappers`**: `Option` and `Result`.
- **`Text`**: `ends_with`, `split_once`, and rendering and parsing of decimal `u64` values.
- **`RedisStore`**: the store and the three commands the pipelines use.
  - The store is a map of `(key, field)` hash cells plus a map of string keys. Redis keeps no
    empty hash, so the flat form loses nothing.
  - Each command acts on each location as one of three effects: keep, overwrite, or set if
    absent. These effects are closed under sequencing, which gives the replay lemmas below.
- **`Extract`**: the three extractors. `extract_ft_pairs` and `extract_nft_pairs` differ
  only in their name tables and the pool rule, so both are one method over a `Standard`
  parameter.
- **`Indexer`**: the following, on top of the extractors:
  - `add_pairs_to_update`;
  - the mutation set of `listen_blocks`;
  - the block loop;
  - the resume logic of `main`.
- **`Backfill`**: the reader loop, task construction, the `HSETNX` pipeline, and the
  per-batch loop with its `total_pairs` counter.

Iteration over a `HashSet` or a `HashMap` has no defined order. The loops therefore take
elements in an order chosen by `:|`, and the contracts say nothing about order: field lists
are compared as multisets.

A panic of the source is an error value or an `ok` flag in the model. `StartupError` lists
the four ways startup can stop. In the backfill, an `expect` in the reader ends only the reader
task: the batches already sent are processed and the stream then ends. A pair that fails to
decode aborts the process before its batch writes anything.

Three points about the code shape the model:

- **The commit is not atomic.** `listen_blocks` and `update_balances` build a plain
  `redis::pipe()` without `.atomic()`, and `with_retries!` resends the whole pipeline after a
  failure. The model therefore treats the commit as a sequence of commands that can stop
  part-way. `RedisStore.ReplayAfterPartialRun` and `RedisStore.RetriedRun` prove that resending
  after any applied prefix yields the store of one complete run.
- **The last partial batch is dropped.** The reader never sends the fewer than 1000 pairs still
  pending when the file ends (see Findings).
- **The parser accepts a leading `+` and leading zeros.** `u64::from_str` accepts both, and
  `Text.ParseU64` does too. A stored checkpoint such as `+0150` therefore resumes at 150.

## Model

| member | source | states |
|---|---|---|
| Text.SplitOnce | src/bin/ft_red.rs:76 | the result is absent exactly when the separator does not occur; otherwise the text is before + separator + after, split at the first occurrence |
| Text.SplitOnceJoin | src/bin/balances_backfill.rs:82 | splitting `before + c + after` at `c`, when `before` holds no `c`, gives back exactly `(before, after)` |
| Text.NatToString | src/bin/ft_red.rs:90 | a height renders as a non-empty string of decimal digits with no leading zero, whose value is the height |
| Text.ParseU64Accepted | src/bin/ft_red.rs:83 | whatever the parser accepts is an optional `+`, some leading zeros and the canonical rendering of the returned value, which fits in a `u64` |
| Text.ParseU64Padded | src/bin/ft_red.rs:83 | every `u64`, written with or without `+` and with any number of leading zeros, parses to that value |
| Text.ParseRendered | src/bin/ft_red.rs:83 | parsing a rendered `u64` gives back the same number |
| Text.RenderedHasNo | src/bin/ft_red.rs:90 | a rendered number contains no non-digit character, in particular no `-` |
| RedisStore.Then | src/bin/ft_red.rs:112-123 | a command's effect followed by another's is again one effect, and applying it equals applying the two in turn |
| RedisStore.ApplyTwice | src/bin/balances_backfill.rs:111-115 | applying any effect twice equals applying it once |
| RedisStore.SetFieldsLookup | src/bin/ft_red.rs:115 | `HSET key fields` changes only fields under `key`, each by the combined effect of the list |
| RedisStore.ExecLookup | src/bin/ft_red.rs:115-120 | one command changes each location by that command's effect on it and leaves every other location alone |
| RedisStore.RunLookup | src/bin/ft_red.rs:113-122 | a pipeline changes each location by the sequenced effects of its commands |
| RedisStore.RunIdempotent | src/bin/balances_backfill.rs:96-120 | running the same pipeline twice leaves the store as running it once |
| RedisStore.ReplayAfterPartialRun | src/bin/ft_red.rs:112-123 | resending a whole pipeline after any prefix of it was applied gives the store of one complete run |
| RedisStore.RetriedRun | src/bin/balances_backfill.rs:96-119 | any number of attempts that each applied a prefix, followed by one complete run, give the store of one complete run |
| RedisStore.MarkerFieldsEffect | src/bin/ft_red.rs:258 | a field list whose values are all empty sets to "" exactly the fields it names and leaves the rest alone |
| RedisStore.DistinctHSetsEffect | src/bin/ft_red.rs:114-116 | with one `HSET` per distinct key, each field under a written key takes the effect of that key's list, and every other location is kept |
| RedisStore.MarkerCommitLookup | src/bin/ft_red.rs:113-120 | after the marker `HSET`s and the final `SET`, a field reads "" exactly when its key's list names it (otherwise it is unchanged), the `SET` key holds its value, and other keys are unchanged |
| Extract.ExtractTokenPairs | src/bin/ft_red.rs:144-247 | the loop returns exactly the union of what each action and each event contributes, for the FT tables or the NFT tables |
| Extract.ExtractStakingPairs | src/bin/ft_red.rs:128-142 | the loop returns exactly the union of what each action contributes to staking |
| Extract.ActionsPairsMember | src/bin/ft_red.rs:147-173 | a pair comes from the actions exactly when some single action contributes it |
| Extract.EventsPairsMember | src/bin/ft_red.rs:174-193 | a pair comes from the events exactly when some single event contributes it |
| Extract.StakingPairsMember | src/bin/ft_red.rs:131-139 | a staking pair comes from the actions exactly when some single action contributes it |
| Extract.StakingPairsExactly | src/bin/ft_red.rs:131-139 | `(predecessor, account)` is extracted exactly when some action is successful, is a function call, and targets a `.poolv1.near` or `.pool.near` account; nothing else is |
| Extract.ActionPairsExactly | src/bin/ft_red.rs:155-171 | a pair comes from the actions exactly when some action qualifies and the pair is either `(predecessor, target)` or `(args receiver, target)` with the receiver present. An action qualifies when it is successful, its method is in the standard's list, and (for FT) its target is not a pool |
| Extract.EventPairsExactly | src/bin/ft_red.rs:179-192 | a pair comes from the events exactly when a successful mint or burn event names it as owner, or a successful transfer event names it as new or old owner; any other event yields nothing |
| Extract.FtActionPairsSkipPools | src/bin/ft_red.rs:151-154 | no action-derived FT pair has a pool account as its contract |
| Extract.PairContractIsRowAccount | src/bin/ft_red.rs:151-189 | the contract of every extracted token pair is the `account_id` of some action or event row |
| Extract.StakingContractIsRowAccount | src/bin/ft_red.rs:137 | every staking pair is the predecessor and account of one action row |
| Extract.FailedRowsIgnored | src/bin/ft_red.rs:148-177 | removing the failed actions and events leaves the extracted token pairs unchanged |
| Extract.FailedStakingActionsIgnored | src/bin/ft_red.rs:132-134 | removing the failed actions leaves the staking pairs unchanged |
| Extract.FtTransferScenario | src/bin/ft_red.rs:155-171 | `ft_transfer` by `alice.near` on `usdc.near` with receiver `bob.near` yields exactly the alice and bob pairs when it succeeds, and nothing when it fails |
| Indexer.UpdateKeyInjective | src/bin/ft_red.rs:256 | under one prefix, different accounts get different keys |
| Indexer.AddPairsToUpdate | src/bin/ft_red.rs:249-260 | a key is present afterwards exactly when it was present before or some pair maps to it. Each list is its old list followed by exactly one `(token, "")` per pair for that key, in some order, and by nothing else |
| Indexer.CategoriesDisjoint | src/bin/ft_red.rs:105-107 | the `ft`, `nf` and `st` prefixes never put fields under the same key |
| Indexer.BuildUpdates | src/bin/ft_red.rs:103-107 | the map has a key exactly when some pair is marked under it, each list is a permutation of the marker fields for that key, and no list holds an entry twice |
| Indexer.BuildCommitPipeline | src/bin/ft_red.rs:112-120 | the pipeline has one `HSET` per key of the map, carrying that key's list and no key twice, followed last by `SET meta:latest_block <height>` |
| Indexer.CommitLookup | src/bin/ft_red.rs:112-123 | after the commit, every marked field reads "" and every other field is unchanged; the checkpoint holds the height, and every other key is unchanged |
| Indexer.ProcessBlock | src/bin/ft_red.rs:98-124 | one block leaves every field it marks reading "", sets the checkpoint to its height, and changes nothing else |
| Indexer.ListenBlocks | src/bin/ft_red.rs:97-126 | after a run of blocks, every field any block marks reads "", the checkpoint is the last block's height (unchanged when there are no blocks), and nothing else changed |
| Indexer.Startup | src/bin/ft_red.rs:76-90 | a first stream id that does not parse refuses startup; so does a stored checkpoint that does not parse as a `u64` (the `unwrap` panics rather than falling back to `first + 100`); on success the resume height lies between `first + 100` and `u64::MAX` |
| Indexer.StartupWithoutCheckpoint | src/bin/ft_red.rs:79-84 | with no stored checkpoint, startup resumes at `first + 100` |
| Indexer.StartupRefusedIff | src/bin/ft_red.rs:86-88 | with a stored checkpoint `last`, startup refuses exactly when `first + 100 > last`; otherwise it resumes at `last` with the cursor `<last>-0`, whatever padding the stored text had |
| Indexer.ResumeCursorParsesBack | src/bin/ft_red.rs:90 | the cursor `<height>-0`, parsed as a stream id, gives back the resume height |
| Indexer.RestartResumesAtCheckpoint | src/bin/ft_red.rs:79-90 | a restart after committing block `h` reads back the checkpoint and resumes at `h` with cursor `h-0` |
| Backfill.DecodeEncode | src/bin/balances_backfill.rs:82 | `split_once(':')` of `token:account` gives back `(token, account)` when the token has no colon |
| Backfill.EncodeInjective | src/bin/balances_backfill.rs:27 | two colon-free tokens encode to the same pair only together with the same account |
| Backfill.EncodeRecords | src/bin/balances_backfill.rs:25-27 | the reader yields one pair per record, in record order, with column 1 (the token) before column 0 (the account) |
| Backfill.ReadablePrefix | src/bin/balances_backfill.rs:23-26 | the reader takes every record up to the first one whose column count differs from the first record's or is below two, and stops there |
| Backfill.FullChunks | src/bin/balances_backfill.rs:28-32 | there are `n / 1000` batches, each of exactly 1000 pairs |
| Backfill.FlattenFullChunks | src/bin/balances_backfill.rs:22-36 | the full batches joined are exactly the first `1000 * floor(n / 1000)` pairs, in order |
| Backfill.FullChunksSnoc | src/bin/balances_backfill.rs:28-32 | one more pair completes a batch exactly when the count reaches a multiple of 1000, and that batch is the last 1000 pairs |
| Backfill.ReadLoop | src/bin/balances_backfill.rs:22-36 | the loop takes exactly the readable prefix; the batches it sends are the full batches of its pairs, and fewer than 1000 pairs remain pending |
| Backfill.ReadBatches | src/bin/balances_backfill.rs:22-36 | the reader as written sends only the full batches of the pairs it reads |
| Backfill.ShortExportSendsNothing | src/bin/balances_backfill.rs:22-36 | an export of one record is read, but as written no batch is sent; the corrected reader sends it as one batch |
| Backfill.AllChunks | src/bin/balances_backfill.rs:22-36 | every corrected batch is non-empty and holds at most 1000 pairs |
| Backfill.AllChunksCarryEverything | src/bin/balances_backfill.rs:22-36 | the corrected batches joined are exactly the pairs read, in order |
| Backfill.ReadAllBatches | src/bin/balances_backfill.rs:22-36 | the corrected reader also sends the pending pairs, so its batches are all the pairs read |
| Backfill.DecodeTask | src/bin/balances_backfill.rs:82-88 | a pair decodes exactly when it holds a colon, into a task with no block height whose colon-free token and account encode back to the pair |
| Backfill.MakeTasksDecodes | src/bin/balances_backfill.rs:81-89 | a batch decodes exactly when every pair has a colon, into one task per pair, in order, each with no block height and the pair's token and account |
| Backfill.RecordTasks | src/bin/balances_backfill.rs:25-89 | records whose tokens have no colon become exactly the tasks `FtPair(None, column 1, column 0)`, one per record, in order |
| Backfill.BalanceWritesEffect | src/bin/balances_backfill.rs:98-116 | the pipeline sets each `b:<token>`/`account` field only if absent, to the first balance fetched for it. It keeps fields with no present result and all plain keys |
| Backfill.BalanceCommitLookup | src/bin/balances_backfill.rs:110-115 | after the pipeline, a field that was absent holds the first balance fetched for it (or stays absent), and every present field and every other location is unchanged |
| Backfill.BuildBalancePipe | src/bin/balances_backfill.rs:97-116 | the loop emits one `HSETNX b:<token> <account> <balance>` per result that has a balance, in result order, and skips absent results |
| Backfill.UpdateBalances | src/bin/balances_backfill.rs:78-121 | `ok` holds exactly when every pair decodes (otherwise nothing is written). The new store is the balance pipeline applied to the old one: fields that were absent get their first fetched balance, and everything else keeps its value |
| Backfill.ProcessBalances | src/bin/balances_backfill.rs:65-76 | when every pair decodes, `total_pairs` is the sum of the batch lengths and the store has had every batch's writes, in order. Otherwise it stops at the first batch that fails, with exactly the earlier batches written |
| Backfill.Backfill | src/bin/balances_backfill.rs:61-76 | with the corrected reader, every readable record's pair is counted and reaches the store through the balance pipeline |

## Left out

- Redis I/O: `xread`, `get`, `reconnect`, `query_async` and the connection handling. A commit is a
  list of commands applied to the store value.
- `with_retries!` is modelled as any series of partial applications followed by one complete run.
  Its fixed delay, its reconnection and the `expect("Failed to update")` after it are not modelled.
- The tokio tasks and the bounded `mpsc` channels: the block stream and the batch stream are
  finite sequences, processed in order. Backpressure is not modelled.
- `extract_rows` and the JSON decoding of stream entries. A block is given as its decoded action
  and event rows, with exactly the fields the extractors read.
- The `unwrap` and `assert_eq!` checks on stream entries (ft_red.rs lines 38-42 and 69-75).
  These are aborts on corrupt input.
- `fetch_from_rpc`: the RPC is a total function from task to optional balance, applied to each
  task in order.
  - A failed RPC call (the `expect` at balances_backfill.rs line 93) is not modelled.
  - Neither is an RPC that answers the same task differently within one batch.
  - `unwrap_as_ft_pair` and the `unreachable!()` arm are not modelled: every task the backfill
    builds is an `FtPair`.
- CSV reading:
  - records are given already split into columns;
  - quoting, blank lines and I/O errors are not modelled;
  - the one rule kept is the non-flexible reader's error on a record whose column count differs
    from the first record's.
- Environment and configuration (`env`, `dotenv`, `openssl_probe`), tracing and the
  `i % 100000` progress log.
- Indexer.Startup: models the `u64` overflow of `first + SAFE_OFFSET` as an error, as in a debug
  build, which panics there. A release build would wrap around and compare the wrapped sum.
- Backfill.ProcessBalances: `total_pairs` is a `usize` in the source. The model counts with an
  unbounded `nat`, so overflow of the counter is not modelled.
- Hash keys and string keys live in separate maps. A key used as both types, which Redis would
  refuse with `WRONGTYPE`, is not modelled. The keys the core writes (`ft:`, `nf:`, `st:`, `b:`
  and `meta:latest_block`) never coincide.

## Findings

| source | as written | input that shows it | evidently intended | confidence | as-written member | corrected member |
|---|---|---|---|---|---|---|
| src/bin/balances_backfill.rs:22-36 | The reader sends a batch only when 1000 pairs have accumulated. The pairs still pending when the file ends are never sent, so up to 999 records are never backfilled | An export holding the single record `alice.near usdc.near`: it is read, but no batch is sent (`Backfill.ShortExportSendsNothing`) | Send the pending pairs as one last batch after the loop, so every record read reaches the store | high; not executed | Backfill.ReadBatches | Backfill.ReadAllBatches |
