/**
 * The key-value store the indexers write to, and the two pipelines they send it.
 *
 * Redis keeps a hash as a map from fields to values and deletes a hash whose last
 * field goes, so the hashes of the whole store are one map from (key, field) to
 * value. String keys such as `meta:latest_block` live beside them.
 */
module RedisStore {
  import opened Wrappers

  datatype Store = Store(hashes: map<(string, string), string>, strings: map<string, string>)

  /** A place in the store: one field of one hash, or one string key. */
  datatype Loc = Field(key: string, field: string) | Key(key: string)

  function HashGet(h: map<(string, string), string>, k: string, f: string): Option<string> {
    if (k, f) in h then Some(h[(k, f)]) else None
  }

  function Lookup(s: Store, loc: Loc): Option<string> {
    match loc
    case Field(k, f) => HashGet(s.hashes, k, f)
    case Key(k) => if k in s.strings then Some(s.strings[k]) else None
  }

  /** The three commands the indexers put in a pipeline. */
  datatype Command =
    | HSet(key: string, fields: seq<(string, string)>)  // set-or-overwrite, several fields at once
    | HSetNx(key: string, field: string, value: string)  // set-if-absent
    | Set(key: string, value: string)

  function SetFields(h: map<(string, string), string>, key: string, fields: seq<(string, string)>): map<(string, string), string>
    decreases |fields|
  {
    if |fields| == 0 then h else SetFields(h[(key, fields[0].0) := fields[0].1], key, fields[1..])
  }

  function Exec(s: Store, c: Command): Store {
    match c
    case HSet(k, fs) => s.(hashes := SetFields(s.hashes, k, fs))
    case HSetNx(k, f, v) => if (k, f) in s.hashes then s else s.(hashes := s.hashes[(k, f) := v])
    case Set(k, v) => s.(strings := s.strings[k := v])
  }

  /** A pipeline runs its commands in order. */
  function Run(s: Store, cmds: seq<Command>): Store
    decreases |cmds|
  {
    if |cmds| == 0 then s else Run(Exec(s, cmds[0]), cmds[1..])
  }

  // ---------------------------------------------------------------------------
  // What a pipeline does to one location

  /** Every pipeline acts on a single location in one of three ways. */
  datatype Effect = Keep | Overwrite(value: string) | IfAbsent(value: string)

  function Apply(e: Effect, o: Option<string>): Option<string> {
    match e
    case Keep => o
    case Overwrite(v) => Some(v)
    case IfAbsent(v) => if o.Some? then o else Some(v)
  }

  /** The effect of `first` followed by `second`: the three kinds are closed under sequencing. */
  function Then(first: Effect, second: Effect): (e: Effect)
    ensures forall o :: Apply(e, o) == Apply(second, Apply(first, o))
  {
    match second
    case Keep => first
    case Overwrite(_) => second
    case IfAbsent(_) => if first.Keep? then second else first
  }

  /** Doing an effect twice is doing it once. */
  lemma ApplyTwice(e: Effect, o: Option<string>)
    ensures Apply(e, Apply(e, o)) == Apply(e, o)
  {
  }

  function FieldsEffect(fields: seq<(string, string)>, f: string): Effect
    decreases |fields|
  {
    if |fields| == 0 then Keep
    else Then(if fields[0].0 == f then Overwrite(fields[0].1) else Keep, FieldsEffect(fields[1..], f))
  }

  function CommandEffect(c: Command, loc: Loc): Effect {
    match c
    case HSet(k, fs) => if loc.Field? && loc.key == k then FieldsEffect(fs, loc.field) else Keep
    case HSetNx(k, f, v) => if loc == Field(k, f) then IfAbsent(v) else Keep
    case Set(k, v) => if loc == Key(k) then Overwrite(v) else Keep
  }

  function PipelineEffect(cmds: seq<Command>, loc: Loc): Effect
    decreases |cmds|
  {
    if |cmds| == 0 then Keep else Then(CommandEffect(cmds[0], loc), PipelineEffect(cmds[1..], loc))
  }

  lemma {:induction false} SetFieldsLookup(h: map<(string, string), string>, key: string, fields: seq<(string, string)>, k: string, f: string)
    ensures HashGet(SetFields(h, key, fields), k, f)
      == Apply(if k == key then FieldsEffect(fields, f) else Keep, HashGet(h, k, f))
    decreases |fields|
  {
    if |fields| > 0 {
      var h1 := h[(key, fields[0].0) := fields[0].1];
      SetFieldsLookup(h1, key, fields[1..], k, f);
      var first := if fields[0].0 == f then Overwrite(fields[0].1) else Keep;
      assert HashGet(h1, k, f) == Apply(if k == key then first else Keep, HashGet(h, k, f));
    }
  }

  lemma ExecLookup(s: Store, c: Command, loc: Loc)
    ensures Lookup(Exec(s, c), loc) == Apply(CommandEffect(c, loc), Lookup(s, loc))
  {
    if c.HSet? && loc.Field? {
      assert Lookup(s, loc) == HashGet(s.hashes, loc.key, loc.field);
      SetFieldsLookup(s.hashes, c.key, c.fields, loc.key, loc.field);
    }
  }

  /** Every location ends up as the pipeline's effect on that location makes it. */
  lemma {:induction false} RunLookup(s: Store, cmds: seq<Command>, loc: Loc)
    ensures Lookup(Run(s, cmds), loc) == Apply(PipelineEffect(cmds, loc), Lookup(s, loc))
    decreases |cmds|
  {
    if |cmds| > 0 {
      ExecLookup(s, cmds[0], loc);
      RunLookup(Exec(s, cmds[0]), cmds[1..], loc);
    }
  }

  /** Two stores that agree on every location are the same store. */
  lemma StoreExt(s1: Store, s2: Store)
    requires forall loc :: Lookup(s1, loc) == Lookup(s2, loc)
    ensures s1 == s2
  {
    forall kf | kf in s1.hashes || kf in s2.hashes
      ensures kf in s1.hashes && kf in s2.hashes && s1.hashes[kf] == s2.hashes[kf]
    {
      assert Lookup(s1, Field(kf.0, kf.1)) == Lookup(s2, Field(kf.0, kf.1));
    }
    forall k | k in s1.strings || k in s2.strings
      ensures k in s1.strings && k in s2.strings && s1.strings[k] == s2.strings[k]
    {
      assert Lookup(s1, Key(k)) == Lookup(s2, Key(k));
    }
  }

  lemma {:induction false} RunAppend(s: Store, a: seq<Command>, b: seq<Command>)
    ensures Run(s, a + b) == Run(Run(s, a), b)
    decreases |a|
  {
    if |a| == 0 {
      assert a + b == b;
    } else {
      assert (a + b)[0] == a[0];
      assert (a + b)[1..] == a[1..] + b;
      RunAppend(Exec(s, a[0]), a[1..], b);
    }
  }

  /** Sending the same pipeline twice leaves the store as sending it once. */
  lemma RunIdempotent(s: Store, cmds: seq<Command>)
    ensures Run(Run(s, cmds), cmds) == Run(s, cmds)
  {
    forall loc ensures Lookup(Run(Run(s, cmds), cmds), loc) == Lookup(Run(s, cmds), loc) {
      RunLookup(s, cmds, loc);
      RunLookup(Run(s, cmds), cmds, loc);
      ApplyTwice(PipelineEffect(cmds, loc), Lookup(s, loc));
    }
    StoreExt(Run(Run(s, cmds), cmds), Run(s, cmds));
  }

  /**
   * A pipeline that was cut off after its first `done` commands and is then sent again
   * in full leaves the store as one complete run would.
   */
  lemma ReplayAfterPartialRun(s: Store, cmds: seq<Command>, done: nat)
    requires done <= |cmds|
    ensures Run(Run(s, cmds[..done]), cmds) == Run(s, cmds)
  {
    var head, tail := cmds[..done], cmds[done..];
    assert cmds == head + tail;
    RunAppend(Run(s, head), head, tail);
    RunIdempotent(s, head);
    RunAppend(s, head, tail);
  }

  /** The store after a series of attempts that each ran some prefix of the pipeline. */
  function AfterAttempts(s: Store, cmds: seq<Command>, attempts: seq<nat>): Store
    requires forall i :: 0 <= i < |attempts| ==> attempts[i] <= |cmds|
    decreases |attempts|
  {
    if |attempts| == 0 then s else AfterAttempts(Run(s, cmds[..attempts[0]]), cmds, attempts[1..])
  }

  /**
   * Retrying until one attempt gets through: whatever prefixes the failed attempts
   * applied, the final complete run leaves the store as a single run would.
   */
  lemma {:induction false} RetriedRun(s: Store, cmds: seq<Command>, attempts: seq<nat>)
    requires forall i :: 0 <= i < |attempts| ==> attempts[i] <= |cmds|
    ensures Run(AfterAttempts(s, cmds, attempts), cmds) == Run(s, cmds)
    decreases |attempts|
  {
    if |attempts| > 0 {
      RetriedRun(Run(s, cmds[..attempts[0]]), cmds, attempts[1..]);
      ReplayAfterPartialRun(s, cmds, attempts[0]);
    }
  }

  // ---------------------------------------------------------------------------
  // Pipelines of HSET commands on distinct keys

  /** True when `hsets` holds one HSET per key of `updates`, carrying that key's field list. */
  ghost predicate HSetsCover(hsets: seq<Command>, updates: map<string, seq<(string, string)>>) {
    && (forall i :: 0 <= i < |hsets| ==> hsets[i].HSet? && hsets[i].key in updates && hsets[i].fields == updates[hsets[i].key])
    && (forall i, j :: 0 <= i < j < |hsets| ==> hsets[i].key != hsets[j].key)
    && (forall k :: k in updates ==> exists i :: 0 <= i < |hsets| && hsets[i].key == k)
  }

  /** A field list whose values are all empty marks each field it names. */
  lemma {:induction false} MarkerFieldsEffect(fields: seq<(string, string)>, f: string)
    requires forall i :: 0 <= i < |fields| ==> fields[i].1 == ""
    ensures FieldsEffect(fields, f) == if (f, "") in fields then Overwrite("") else Keep
    decreases |fields|
  {
    if |fields| > 0 {
      MarkerFieldsEffect(fields[1..], f);
      assert fields == [fields[0]] + fields[1..];
    }
  }

  lemma {:induction false} DistinctHSetsEffect(hsets: seq<Command>, updates: map<string, seq<(string, string)>>, loc: Loc)
    requires forall i :: 0 <= i < |hsets| ==> hsets[i].HSet? && hsets[i].key in updates && hsets[i].fields == updates[hsets[i].key]
    requires forall i, j :: 0 <= i < j < |hsets| ==> hsets[i].key != hsets[j].key
    ensures PipelineEffect(hsets, loc)
      == if loc.Field? && exists i :: 0 <= i < |hsets| && hsets[i].key == loc.key
         then FieldsEffect(updates[loc.key], loc.field) else Keep
    decreases |hsets|
  {
    if |hsets| > 0 {
      DistinctHSetsEffect(hsets[1..], updates, loc);
      if loc.Field? && hsets[0].key == loc.key {
        assert !exists i :: 0 <= i < |hsets[1..]| && hsets[1..][i].key == loc.key by {
          forall i | 0 <= i < |hsets[1..]| ensures hsets[1..][i].key != loc.key {
            assert hsets[1..][i] == hsets[i + 1];
          }
        }
      } else if loc.Field? {
        if exists i :: 0 <= i < |hsets| && hsets[i].key == loc.key {
          var i :| 0 <= i < |hsets| && hsets[i].key == loc.key;
          assert hsets[1..][i - 1] == hsets[i];
        }
      }
    }
  }

  /** The store after the HSETs and the final SET, read at one location, is the SET's effect on the HSETs' result. */
  lemma CommitSteps(s: Store, hsets: seq<Command>, key: string, value: string, loc: Loc)
    ensures Lookup(Run(s, hsets + [Set(key, value)]), loc)
      == Apply(CommandEffect(Set(key, value), loc), Apply(PipelineEffect(hsets, loc), Lookup(s, loc)))
  {
    var mid := Run(s, hsets);
    RunAppend(s, hsets, [Set(key, value)]);
    assert Run(mid, [Set(key, value)]) == Exec(mid, Set(key, value));
    ExecLookup(mid, Set(key, value), loc);
    RunLookup(s, hsets, loc);
  }

  /** With distinct keys and empty values, the HSETs mark a field exactly when its key's list names it. */
  lemma MarkerHSetsEffect(hsets: seq<Command>, updates: map<string, seq<(string, string)>>, k: string, f: string)
    requires HSetsCover(hsets, updates)
    requires forall k, i :: k in updates && 0 <= i < |updates[k]| ==> updates[k][i].1 == ""
    ensures PipelineEffect(hsets, Field(k, f))
      == if k in updates && (f, "") in updates[k] then Overwrite("") else Keep
  {
    DistinctHSetsEffect(hsets, updates, Field(k, f));
    if k in updates {
      var i :| 0 <= i < |hsets| && hsets[i].key == k;
      MarkerFieldsEffect(updates[k], f);
    }
  }

  /** A field after the commit of one block: "" when some HSET marks it, as before otherwise. */
  lemma MarkerCommitField(s: Store, hsets: seq<Command>, updates: map<string, seq<(string, string)>>, key: string, value: string, k: string, f: string)
    requires HSetsCover(hsets, updates)
    requires forall k, i :: k in updates && 0 <= i < |updates[k]| ==> updates[k][i].1 == ""
    ensures Lookup(Run(s, hsets + [Set(key, value)]), Field(k, f))
      == if k in updates && (f, "") in updates[k] then Some("") else Lookup(s, Field(k, f))
  {
    CommitSteps(s, hsets, key, value, Field(k, f));
    MarkerHSetsEffect(hsets, updates, k, f);
  }

  /** A string key after the commit of one block: the SET key holds its value, every other key is as before. */
  lemma MarkerCommitKey(s: Store, hsets: seq<Command>, updates: map<string, seq<(string, string)>>, key: string, value: string, k: string)
    requires HSetsCover(hsets, updates)
    ensures Lookup(Run(s, hsets + [Set(key, value)]), Key(k))
      == if k == key then Some(value) else Lookup(s, Key(k))
  {
    CommitSteps(s, hsets, key, value, Key(k));
    DistinctHSetsEffect(hsets, updates, Key(k));
  }

  /**
   * The commit of one block: HSETs of empty marker values on distinct keys, then one SET.
   * Marked fields read "", the SET key reads its value, and every other location is as before,
   * whatever order the HSETs come in.
   */
  lemma MarkerCommitLookup(s: Store, hsets: seq<Command>, updates: map<string, seq<(string, string)>>, key: string, value: string, loc: Loc)
    requires HSetsCover(hsets, updates)
    requires forall k, i :: k in updates && 0 <= i < |updates[k]| ==> updates[k][i].1 == ""
    ensures Lookup(Run(s, hsets + [Set(key, value)]), loc)
      == match loc
         case Field(k, f) => if k in updates && (f, "") in updates[k] then Some("") else Lookup(s, loc)
         case Key(k) => if k == key then Some(value) else Lookup(s, loc)
  {
    match loc
    case Field(k, f) => MarkerCommitField(s, hsets, updates, key, value, k, f);
    case Key(k) => MarkerCommitKey(s, hsets, updates, key, value, k);
  }
}
