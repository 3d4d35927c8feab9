/**
 * The FT indexer: groups the extracted pairs into per-account field lists, commits each
 * block as one HSET pipeline ending with the checkpoint, and computes where to resume.
 */
module Indexer {
  import opened Wrappers
  import opened Text
  import opened RedisStore
  import opened Extract

  const LatestBlockKey: string := "meta:latest_block"

  /** How far past the first block still in the stream a fresh start resumes. */
  const SafeOffset: nat := 100

  /** Field lists to write, per key: what the driver accumulates before committing a block. */
  type UpdateMap = map<string, seq<(string, string)>>

  /** The output of the rows decoder for one block, with the block's height. */
  datatype Block = Block(height: nat, actions: seq<ActionRow>, events: seq<EventRow>)

  /** `format!("{}:{}", prefix, account_id)` */
  function UpdateKey(prefix: string, account: string): string {
    prefix + ":" + account
  }

  lemma UpdateKeyInjective(prefix: string, a: string, b: string)
    requires UpdateKey(prefix, a) == UpdateKey(prefix, b)
    ensures a == b
  {
    assert a == UpdateKey(prefix, a)[|prefix| + 1..];
    assert b == UpdateKey(prefix, b)[|prefix| + 1..];
  }

  /** The (key, field) places that a set of pairs marks under one category prefix. */
  function Marks(prefix: string, pairs: set<Pair>): set<(string, string)> {
    set p | p in pairs :: (UpdateKey(prefix, p.0), p.1)
  }

  /** The marker fields that `marks` puts under key `k`. */
  function FieldsUnder(marks: set<(string, string)>, k: string): set<(string, string)> {
    set m | m in marks && m.0 == k :: (m.1, "")
  }

  function FieldsOr(m: UpdateMap, k: string): seq<(string, string)> {
    if k in m then m[k] else []
  }

  /** `after[k]` is `before`'s list for `k` followed by the fields `added`, each exactly once, in some order. */
  ghost predicate AppendedUnder(before: UpdateMap, after: UpdateMap, k: string, added: set<(string, string)>) {
    && k in after
    && var prior := FieldsOr(before, k);
    && |prior| <= |after[k]|
    && after[k][..|prior|] == prior
    && multiset(after[k][|prior|..]) == multiset(added)
  }

  lemma MarksAddOne(prefix: string, done: set<Pair>, p: Pair, k: string)
    requires p !in done
    ensures FieldsUnder(Marks(prefix, done + {p}), k)
      == if k == UpdateKey(prefix, p.0) then FieldsUnder(Marks(prefix, done), k) + {(p.1, "")}
         else FieldsUnder(Marks(prefix, done), k)
    ensures k == UpdateKey(prefix, p.0) ==> (p.1, "") !in FieldsUnder(Marks(prefix, done), k)
  {
    assert Marks(prefix, done + {p}) == Marks(prefix, done) + {(UpdateKey(prefix, p.0), p.1)};
    forall q | q in done && UpdateKey(prefix, q.0) == UpdateKey(prefix, p.0)
      ensures q.1 != p.1
    {
      UpdateKeyInjective(prefix, q.0, p.0);
    }
  }

  /** Appending a new marker to a list that extends `prior` by `added` extends it by `added` plus that marker. */
  lemma AppendMarker(prior: seq<(string, string)>, cur: seq<(string, string)>, added: set<(string, string)>, x: (string, string))
    requires |prior| <= |cur| && cur[..|prior|] == prior && multiset(cur[|prior|..]) == multiset(added)
    requires x !in added
    ensures var n := cur + [x];
      |prior| <= |n| && n[..|prior|] == prior && multiset(n[|prior|..]) == multiset(added + {x})
  {
    var n := cur + [x];
    assert n[..|prior|] == prior;
    assert n[|prior|..] == cur[|prior|..] + [x];
    assert multiset(added + {x}) == multiset(added) + multiset{x};
  }

  /** One iteration of the grouping loop keeps its invariant at key `k`. */
  lemma AddOneAt(prefix: string, toUpdate: UpdateMap, result: UpdateMap, done: set<Pair>, p: Pair, k: string)
    requires p !in done
    requires k in result <==> k in toUpdate || FieldsUnder(Marks(prefix, done), k) != {}
    requires k in result ==> AppendedUnder(toUpdate, result, k, FieldsUnder(Marks(prefix, done), k))
    ensures var key := UpdateKey(prefix, p.0);
      var next := result[key := FieldsOr(result, key) + [(p.1, "")]];
      && (k in next <==> k in toUpdate || FieldsUnder(Marks(prefix, done + {p}), k) != {})
      && (k in next ==> AppendedUnder(toUpdate, next, k, FieldsUnder(Marks(prefix, done + {p}), k)))
  {
    var key := UpdateKey(prefix, p.0);
    MarksAddOne(prefix, done, p, k);
    if k == key {
      var prior, cur, added := FieldsOr(toUpdate, key), FieldsOr(result, key), FieldsUnder(Marks(prefix, done), key);
      if key !in result {
        assert prior == [] && cur == [] && added == {};
      }
      AppendMarker(prior, cur, added, (p.1, ""));
    }
  }

  /** One iteration of the grouping loop keeps its invariant. */
  lemma AddOneKeepsInvariant(prefix: string, toUpdate: UpdateMap, result: UpdateMap, done: set<Pair>, p: Pair)
    requires p !in done
    requires forall k :: k in result <==> k in toUpdate || FieldsUnder(Marks(prefix, done), k) != {}
    requires forall k :: k in result ==> AppendedUnder(toUpdate, result, k, FieldsUnder(Marks(prefix, done), k))
    ensures var key := UpdateKey(prefix, p.0);
      var next := result[key := FieldsOr(result, key) + [(p.1, "")]];
      && (forall k :: k in next <==> k in toUpdate || FieldsUnder(Marks(prefix, done + {p}), k) != {})
      && (forall k :: k in next ==> AppendedUnder(toUpdate, next, k, FieldsUnder(Marks(prefix, done + {p}), k)))
  {
    forall k {
      AddOneAt(prefix, toUpdate, result, done, p, k);
    }
  }

  /**
   * `add_pairs_to_update`: for every pair, appends the marker field (contract, "") to the
   * list under `prefix:account`. The set is visited in no particular order.
   */
  method AddPairsToUpdate(prefix: string, pairs: set<Pair>, toUpdate: UpdateMap) returns (result: UpdateMap)
    ensures forall k :: k in result <==> k in toUpdate || FieldsUnder(Marks(prefix, pairs), k) != {}
    ensures forall k :: k in result ==> AppendedUnder(toUpdate, result, k, FieldsUnder(Marks(prefix, pairs), k))
  {
    result := toUpdate;
    var rest := pairs;
    assert pairs - rest == {};
    assert forall k :: FieldsUnder(Marks(prefix, {}), k) == {};
    while rest != {}
      invariant rest <= pairs
      invariant forall k :: k in result <==> k in toUpdate || FieldsUnder(Marks(prefix, pairs - rest), k) != {}
      invariant forall k :: k in result ==> AppendedUnder(toUpdate, result, k, FieldsUnder(Marks(prefix, pairs - rest), k))
      decreases rest
    {
      var p :| p in rest;
      var (accountId, tokenId) := p;
      AddOneKeepsInvariant(prefix, toUpdate, result, pairs - rest, p);
      var key := UpdateKey(prefix, accountId);
      result := result[key := FieldsOr(result, key) + [(tokenId, "")]];
      assert pairs - (rest - {p}) == (pairs - rest) + {p};
      rest := rest - {p};
    }
    assert pairs - rest == pairs;
  }

  // ---------------------------------------------------------------------------
  // One block's field lists: three categories under three prefixes

  /** Every (key, field) place that the FT, NFT and staking pairs of one block mark. */
  function CategoryMarks(ft: set<Pair>, nf: set<Pair>, st: set<Pair>): set<(string, string)> {
    Marks("ft", ft) + Marks("nf", nf) + Marks("st", st)
  }

  /** Keys marked under a prefix start with that prefix and a colon. */
  lemma UnmarkedWithoutPrefix(prefix: string, pairs: set<Pair>, k: string)
    requires !(|prefix| + 1 <= |k| && k[..|prefix| + 1] == prefix + ":")
    ensures FieldsUnder(Marks(prefix, pairs), k) == {}
  {
    forall p | p in pairs
      ensures UpdateKey(prefix, p.0)[..|prefix| + 1] == prefix + ":"
    {
    }
  }

  /** A key holds fields of at most one of the three categories. */
  lemma CategoriesDisjoint(ft: set<Pair>, nf: set<Pair>, st: set<Pair>, k: string)
    ensures FieldsUnder(Marks("ft", ft), k) == {} || (FieldsUnder(Marks("nf", nf), k) == {} && FieldsUnder(Marks("st", st), k) == {})
    ensures FieldsUnder(Marks("nf", nf), k) == {} || FieldsUnder(Marks("st", st), k) == {}
  {
    assert "ft" + ":" == "ft:" && "nf" + ":" == "nf:" && "st" + ":" == "st:";
    assert "ft:"[0] == 'f' && "nf:"[0] == 'n' && "st:"[0] == 's';
    if 3 <= |k| && k[..3] == "ft:" {
      UnmarkedWithoutPrefix("nf", nf, k);
      UnmarkedWithoutPrefix("st", st, k);
    } else if 3 <= |k| && k[..3] == "nf:" {
      UnmarkedWithoutPrefix("ft", ft, k);
      UnmarkedWithoutPrefix("st", st, k);
    } else {
      UnmarkedWithoutPrefix("ft", ft, k);
      UnmarkedWithoutPrefix("nf", nf, k);
    }
  }

  lemma AppendedMultiset(before: UpdateMap, after: UpdateMap, k: string, added: set<(string, string)>)
    requires AppendedUnder(before, after, k, added)
    ensures multiset(after[k]) == multiset(FieldsOr(before, k)) + multiset(added)
  {
    var prior := FieldsOr(before, k);
    assert after[k] == after[k][..|prior|] + after[k][|prior|..];
  }

  /** A list with the multiset of a set holds no element twice. */
  lemma NoElementTwice(list: seq<(string, string)>, elements: set<(string, string)>)
    requires multiset(list) == multiset(elements)
    ensures forall i, j :: 0 <= i < j < |list| ==> list[i] != list[j]
  {
    forall i, j | 0 <= i < j < |list|
      ensures list[i] != list[j]
    {
      var x := list[i];
      assert list == list[..i] + [x] + list[i + 1..j] + [list[j]] + list[j + 1..];
      assert multiset(list)[x] >= multiset{x}[x] + multiset{list[j]}[x];
      assert multiset(elements)[x] <= 1;
    }
  }

  lemma FieldsUnderUnion(m1: set<(string, string)>, m2: set<(string, string)>, k: string)
    ensures FieldsUnder(m1 + m2, k) == FieldsUnder(m1, k) + FieldsUnder(m2, k)
  {
  }

  lemma MultisetOfUnion(a: set<(string, string)>, b: set<(string, string)>, c: set<(string, string)>)
    requires a == {} || (b == {} && c == {})
    requires b == {} || c == {}
    ensures multiset(a + b + c) == multiset(a) + multiset(b) + multiset(c)
  {
    if a != {} {
      assert a + b + c == a;
    } else if b != {} {
      assert a + b + c == b;
    } else {
      assert a + b + c == c;
    }
  }

  /** One grouping call adds its category's fields to the multiset under a key. */
  lemma GroupedStep(before: UpdateMap, after: UpdateMap, k: string, added: set<(string, string)>)
    requires k in after <==> k in before || added != {}
    requires k in after ==> AppendedUnder(before, after, k, added)
    ensures multiset(FieldsOr(after, k)) == multiset(FieldsOr(before, k)) + multiset(added)
  {
    if k in after {
      AppendedMultiset(before, after, k, added);
    }
  }

  /** What the three grouping calls leave under one key. */
  lemma GroupedAt(ft: set<Pair>, nf: set<Pair>, st: set<Pair>, t1: UpdateMap, t2: UpdateMap, t3: UpdateMap, k: string)
    requires k in t1 <==> FieldsUnder(Marks("ft", ft), k) != {}
    requires k in t1 ==> AppendedUnder(map[], t1, k, FieldsUnder(Marks("ft", ft), k))
    requires k in t2 <==> k in t1 || FieldsUnder(Marks("nf", nf), k) != {}
    requires k in t2 ==> AppendedUnder(t1, t2, k, FieldsUnder(Marks("nf", nf), k))
    requires k in t3 <==> k in t2 || FieldsUnder(Marks("st", st), k) != {}
    requires k in t3 ==> AppendedUnder(t2, t3, k, FieldsUnder(Marks("st", st), k))
    ensures k in t3 <==> FieldsUnder(CategoryMarks(ft, nf, st), k) != {}
    ensures k in t3 ==> multiset(t3[k]) == multiset(FieldsUnder(CategoryMarks(ft, nf, st), k))
  {
    var a, b, c := FieldsUnder(Marks("ft", ft), k), FieldsUnder(Marks("nf", nf), k), FieldsUnder(Marks("st", st), k);
    FieldsUnderUnion(Marks("ft", ft) + Marks("nf", nf), Marks("st", st), k);
    FieldsUnderUnion(Marks("ft", ft), Marks("nf", nf), k);
    assert FieldsUnder(CategoryMarks(ft, nf, st), k) == a + b + c;
    CategoriesDisjoint(ft, nf, st, k);
    MultisetOfUnion(a, b, c);
    GroupedStep(map[], t1, k, a);
    GroupedStep(t1, t2, k, b);
    GroupedStep(t2, t3, k, c);
  }

  /**
   * The grouping step of `listen_blocks`: FT pairs under `ft:`, NFT pairs under `nf:`,
   * staking pairs under `st:`. Each key holds exactly the marker fields of its category,
   * none twice, so no (key, field) is written twice in one commit.
   */
  method BuildUpdates(ft: set<Pair>, nf: set<Pair>, st: set<Pair>) returns (toUpdate: UpdateMap)
    ensures forall k :: k in toUpdate <==> FieldsUnder(CategoryMarks(ft, nf, st), k) != {}
    ensures forall k :: k in toUpdate ==> multiset(toUpdate[k]) == multiset(FieldsUnder(CategoryMarks(ft, nf, st), k))
    ensures forall k, i, j :: k in toUpdate && 0 <= i < j < |toUpdate[k]| ==> toUpdate[k][i] != toUpdate[k][j]
  {
    var t1 := AddPairsToUpdate("ft", ft, map[]);
    var t2 := AddPairsToUpdate("nf", nf, t1);
    toUpdate := AddPairsToUpdate("st", st, t2);
    forall k
      ensures k in toUpdate <==> FieldsUnder(CategoryMarks(ft, nf, st), k) != {}
      ensures k in toUpdate ==> multiset(toUpdate[k]) == multiset(FieldsUnder(CategoryMarks(ft, nf, st), k))
    {
      GroupedAt(ft, nf, st, t1, t2, toUpdate, k);
    }
    forall k | k in toUpdate
      ensures forall i, j :: 0 <= i < j < |toUpdate[k]| ==> toUpdate[k][i] != toUpdate[k][j]
    {
      NoElementTwice(toUpdate[k], FieldsUnder(CategoryMarks(ft, nf, st), k));
    }
  }

  /**
   * The pipeline of `listen_blocks`: one HSET per key of `toUpdate` with its field list,
   * in no particular order, then the checkpoint SET.
   */
  method BuildCommitPipeline(toUpdate: UpdateMap, height: nat) returns (cmds: seq<Command>)
    ensures |cmds| > 0 && cmds[|cmds| - 1] == Set(LatestBlockKey, NatToString(height))
    ensures HSetsCover(cmds[..|cmds| - 1], toUpdate)
  {
    var hsets: seq<Command> := [];
    var keys := toUpdate.Keys;
    while keys != {}
      invariant keys <= toUpdate.Keys
      invariant forall i :: 0 <= i < |hsets| ==> hsets[i].HSet? && hsets[i].key in toUpdate && hsets[i].fields == toUpdate[hsets[i].key] && hsets[i].key !in keys
      invariant forall i, j :: 0 <= i < j < |hsets| ==> hsets[i].key != hsets[j].key
      invariant forall k :: k in toUpdate && k !in keys ==> HSet(k, toUpdate[k]) in hsets
      decreases keys
    {
      var key :| key in keys;
      hsets := hsets + [HSet(key, toUpdate[key])];
      keys := keys - {key};
    }
    cmds := hsets + [Set(LatestBlockKey, NatToString(height))];
    assert cmds[..|cmds| - 1] == hsets;
    forall k | k in toUpdate
      ensures exists i :: 0 <= i < |hsets| && hsets[i].key == k
    {
      var i :| 0 <= i < |hsets| && hsets[i] == HSet(k, toUpdate[k]);
    }
  }

  lemma MarkerValues(toUpdate: UpdateMap, marks: set<(string, string)>)
    requires forall k :: k in toUpdate ==> multiset(toUpdate[k]) == multiset(FieldsUnder(marks, k))
    ensures forall k, i :: k in toUpdate && 0 <= i < |toUpdate[k]| ==> toUpdate[k][i].1 == ""
  {
    forall k, i | k in toUpdate && 0 <= i < |toUpdate[k]|
      ensures toUpdate[k][i].1 == ""
    {
      assert toUpdate[k][i] in multiset(FieldsUnder(marks, k));
    }
  }

  lemma MarkedIff(toUpdate: UpdateMap, marks: set<(string, string)>, k: string, f: string)
    requires forall k :: k in toUpdate <==> FieldsUnder(marks, k) != {}
    requires forall k :: k in toUpdate ==> multiset(toUpdate[k]) == multiset(FieldsUnder(marks, k))
    ensures (k in toUpdate && (f, "") in toUpdate[k]) <==> (k, f) in marks
  {
    if (k, f) in marks {
      assert (f, "") in FieldsUnder(marks, k);
    }
    if k in toUpdate {
      assert (f, "") in toUpdate[k] <==> (f, "") in multiset(FieldsUnder(marks, k));
    }
  }

  /** What committing the grouped fields of one block does to every location of the store. */
  lemma CommitLookup(s: Store, toUpdate: UpdateMap, marks: set<(string, string)>, cmds: seq<Command>, height: nat)
    requires forall k :: k in toUpdate <==> FieldsUnder(marks, k) != {}
    requires forall k :: k in toUpdate ==> multiset(toUpdate[k]) == multiset(FieldsUnder(marks, k))
    requires |cmds| > 0 && cmds[|cmds| - 1] == Set(LatestBlockKey, NatToString(height))
    requires HSetsCover(cmds[..|cmds| - 1], toUpdate)
    ensures forall k, f :: Lookup(Run(s, cmds), Field(k, f)) == if (k, f) in marks then Some("") else Lookup(s, Field(k, f))
    ensures Lookup(Run(s, cmds), Key(LatestBlockKey)) == Some(NatToString(height))
    ensures forall k :: k != LatestBlockKey ==> Lookup(Run(s, cmds), Key(k)) == Lookup(s, Key(k))
  {
    var hsets := cmds[..|cmds| - 1];
    var checkpoint := Set(LatestBlockKey, NatToString(height));
    assert cmds == hsets + [checkpoint];
    MarkerValues(toUpdate, marks);
    forall k, f
      ensures Lookup(Run(s, cmds), Field(k, f)) == if (k, f) in marks then Some("") else Lookup(s, Field(k, f))
    {
      MarkerCommitLookup(s, hsets, toUpdate, LatestBlockKey, NatToString(height), Field(k, f));
      MarkedIff(toUpdate, marks, k, f);
    }
    forall k
      ensures Lookup(Run(s, cmds), Key(k)) == if k == LatestBlockKey then Some(NatToString(height)) else Lookup(s, Key(k))
    {
      MarkerCommitLookup(s, hsets, toUpdate, LatestBlockKey, NatToString(height), Key(k));
    }
  }

  // ---------------------------------------------------------------------------
  // The block loop

  /** The places one block marks. */
  function BlockMarks(block: Block): set<(string, string)> {
    CategoryMarks(
      TokenPairs(Fungible, block.actions, block.events),
      TokenPairs(NonFungible, block.actions, block.events),
      StakingPairs(block.actions))
  }

  function AllMarks(blocks: seq<Block>): set<(string, string)>
    decreases |blocks|
  {
    if |blocks| == 0 then {} else AllMarks(blocks[..|blocks| - 1]) + BlockMarks(blocks[|blocks| - 1])
  }

  /**
   * One iteration of `listen_blocks`: extract, group, commit. Afterwards every place the
   * block marks reads "", the checkpoint is the block's height, and nothing else changed.
   */
  method ProcessBlock(s: Store, block: Block) returns (next: Store)
    ensures forall k, f :: Lookup(next, Field(k, f)) == if (k, f) in BlockMarks(block) then Some("") else Lookup(s, Field(k, f))
    ensures Lookup(next, Key(LatestBlockKey)) == Some(NatToString(block.height))
    ensures forall k :: k != LatestBlockKey ==> Lookup(next, Key(k)) == Lookup(s, Key(k))
  {
    var ft := ExtractTokenPairs(Fungible, block.actions, block.events);
    var nf := ExtractTokenPairs(NonFungible, block.actions, block.events);
    var st := ExtractStakingPairs(block.actions);
    var toUpdate := BuildUpdates(ft, nf, st);
    var cmds := BuildCommitPipeline(toUpdate, block.height);
    next := Run(s, cmds);
    CommitLookup(s, toUpdate, CategoryMarks(ft, nf, st), cmds, block.height);
  }

  /**
   * `listen_blocks` over a finite run of the stream: every place any block marks reads "",
   * the checkpoint is the height of the last block, and nothing else changed.
   */
  method ListenBlocks(s: Store, blocks: seq<Block>) returns (last: Store)
    ensures forall k, f :: Lookup(last, Field(k, f)) == if (k, f) in AllMarks(blocks) then Some("") else Lookup(s, Field(k, f))
    ensures Lookup(last, Key(LatestBlockKey))
      == if |blocks| == 0 then Lookup(s, Key(LatestBlockKey)) else Some(NatToString(blocks[|blocks| - 1].height))
    ensures forall k :: k != LatestBlockKey ==> Lookup(last, Key(k)) == Lookup(s, Key(k))
  {
    last := s;
    for i := 0 to |blocks|
      invariant forall k, f :: Lookup(last, Field(k, f)) == if (k, f) in AllMarks(blocks[..i]) then Some("") else Lookup(s, Field(k, f))
      invariant Lookup(last, Key(LatestBlockKey))
        == if i == 0 then Lookup(s, Key(LatestBlockKey)) else Some(NatToString(blocks[i - 1].height))
      invariant forall k :: k != LatestBlockKey ==> Lookup(last, Key(k)) == Lookup(s, Key(k))
    {
      assert blocks[..i + 1][..i] == blocks[..i];
      last := ProcessBlock(last, blocks[i]);
    }
    assert blocks[..|blocks|] == blocks;
  }

  // ---------------------------------------------------------------------------
  // Where to resume

  /** Each way `main` can panic before it starts listening. */
  datatype StartupError =
    | MalformedStreamId     // no `-` in the first stream id, or no u64 before it
    | MalformedCheckpoint   // the stored checkpoint is not a u64
    | HeightOverflow        // `first + SAFE_OFFSET` does not fit in a u64
    | TooCloseToHead        // the resume height is less than SAFE_OFFSET past the first block

  datatype Resume = Resume(height: nat, cursor: string)

  /** `id.split_once("-").0.parse::<u64>()` for a stream id `<height>-<seq>`. */
  function StreamIdHeight(id: string): Option<nat> {
    match SplitOnce(id, '-')
    case None => None
    case Some((height, _)) => ParseU64(height)
  }

  /**
   * The startup of `main`: the first block height comes from the first stream id; the resume
   * height is the stored checkpoint, or `first + SAFE_OFFSET` when none is stored; a resume
   * height less than `SAFE_OFFSET` past the first block is refused; the stream is then read
   * after the cursor `<height>-0`.
   */
  function Startup(firstId: string, checkpoint: Option<string>): (r: Result<Resume, StartupError>)
    ensures r.Ok? ==> StreamIdHeight(firstId).Some? && StreamIdHeight(firstId).value + SafeOffset <= r.value.height <= MaxU64
    ensures StreamIdHeight(firstId).None? ==> r == Err(MalformedStreamId)
    ensures StreamIdHeight(firstId).Some? && checkpoint.Some? && ParseU64(checkpoint.value).None? ==> r == Err(MalformedCheckpoint)
  {
    match StreamIdHeight(firstId)
    case None => Err(MalformedStreamId)
    case Some(first) =>
      var stored := if checkpoint.Some? then ParseU64(checkpoint.value) else None;
      if checkpoint.Some? && stored.None? then Err(MalformedCheckpoint)
      else if first + SafeOffset > MaxU64 then Err(HeightOverflow)
      else
        var last := if stored.Some? then stored.value else first + SafeOffset;
        if first + SafeOffset > last then Err(TooCloseToHead)
        else Ok(Resume(last, NatToString(last) + "-0"))
  }

  /** Without a stored checkpoint the indexer resumes `SAFE_OFFSET` blocks after the first one. */
  lemma StartupWithoutCheckpoint(firstId: string, first: nat)
    requires StreamIdHeight(firstId) == Some(first) && first + SafeOffset <= MaxU64
    ensures Startup(firstId, None).Ok?
    ensures Startup(firstId, None).value.height == first + SafeOffset
  {
  }

  /** Startup is refused exactly when the stored height is less than `SAFE_OFFSET` past the first block. */
  lemma StartupRefusedIff(firstId: string, first: nat, checkpoint: string, last: nat)
    requires StreamIdHeight(firstId) == Some(first) && first + SafeOffset <= MaxU64
    requires ParseU64(checkpoint) == Some(last)
    ensures Startup(firstId, Some(checkpoint)) == Err(TooCloseToHead) <==> first + SafeOffset > last
    ensures Startup(firstId, Some(checkpoint)).Ok? <==> first + SafeOffset <= last
    ensures Startup(firstId, Some(checkpoint)).Ok? ==> Startup(firstId, Some(checkpoint)).value == Resume(last, NatToString(last) + "-0")
  {
  }

  /** The resume cursor names the resume height: parsing it back the way stream ids are parsed gives that height. */
  lemma ResumeCursorParsesBack(firstId: string, checkpoint: Option<string>)
    requires Startup(firstId, checkpoint).Ok?
    ensures StreamIdHeight(Startup(firstId, checkpoint).value.cursor) == Some(Startup(firstId, checkpoint).value.height)
  {
    CursorHeight(Startup(firstId, checkpoint).value.height);
  }

  lemma CursorHeight(h: nat)
    requires h <= MaxU64
    ensures StreamIdHeight(NatToString(h) + "-0") == Some(h)
  {
    RenderedHasNo(h, '-');
    SplitOnceJoin(NatToString(h), '-', "0");
    assert NatToString(h) + "-0" == NatToString(h) + ['-'] + "0";
    ParseRendered(h);
  }

  /**
   * A restart after committing a block of height `h` reads back the checkpoint that the
   * commit wrote and resumes at `h`, as long as `h` is far enough past the first block.
   */
  lemma RestartResumesAtCheckpoint(s: Store, firstId: string, first: nat, h: nat)
    requires Lookup(s, Key(LatestBlockKey)) == Some(NatToString(h))
    requires StreamIdHeight(firstId) == Some(first) && first + SafeOffset <= h <= MaxU64
    ensures Startup(firstId, Lookup(s, Key(LatestBlockKey))) == Ok(Resume(h, NatToString(h) + "-0"))
  {
    ParseRendered(h);
  }
}
