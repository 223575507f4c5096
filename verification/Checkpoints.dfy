/**
 The two checkpoint stores: a Redis key per network that keeps the last value written, and
 a PostgreSQL table that keeps every height once and is read back by its maximum.
 */
module Checkpoints {
  import opened Wrappers
  import opened HexNumbers
  import opened Chainstream

  /** The last is any other error of the query. */
  datatype LoadError = NoCheckpointFound | InvalidHex | StoreError

  /** One successful SaveCheckpoint call. */
  datatype Save = Save(network: string, height: Hex)

  // ---------- Redis ----------

  function CheckpointKey(network: string): string {
    "chainstream:checkpoint:" + network
  }

  lemma CheckpointKeysDiffer(a: string, b: string)
    ensures CheckpointKey(a) == CheckpointKey(b) <==> a == b
  {
    assert CheckpointKey(a)[|"chainstream:checkpoint:"|..] == a;
    assert CheckpointKey(b)[|"chainstream:checkpoint:"|..] == b;
  }

  function RedisLoad(kv: map<string, string>, network: string): Result<Hex, LoadError> {
    var key := CheckpointKey(network);
    if key !in kv then Failure(NoCheckpointFound)
    else if ValidHex(kv[key]) then Success(kv[key]) else Failure(InvalidHex)
  }

  class RedisCheckpoints {
    var kv: map<string, string>

    constructor ()
      ensures kv == map[]
    {
      kv := map[];
    }

    method SaveCheckpoint(network: string, height: Hex)
      modifies this
      ensures kv == old(kv)[CheckpointKey(network) := height]
    {
      var key := CheckpointKey(network);
      kv := kv[key := height];
    }

    method LoadLatestCheckpoint(network: string, queryFails: bool) returns (r: Result<Hex, LoadError>)
      ensures r == if queryFails then Failure(StoreError) else RedisLoad(kv, network)
    {
      if queryFails {
        return Failure(StoreError);
      }
      var key := CheckpointKey(network);
      if key !in kv {
        return Failure(NoCheckpointFound);
      }
      var val := kv[key];
      if !ValidHex(val) {
        return Failure(InvalidHex);
      }
      return Success(val);
    }

    method Replay(history: seq<Save>)
      requires kv == map[]
      modifies this
      ensures kv == RedisAfter(history)
    {
      for i := 0 to |history|
        invariant kv == RedisAfter(history[..i])
      {
        SaveCheckpoint(history[i].network, history[i].height);
        assert history[..i + 1][..i] == history[..i];
      }
      assert history[..|history|] == history;
    }
  }

  function RedisAfter(history: seq<Save>): map<string, string> {
    if history == [] then map[]
    else
      var last := history[|history| - 1];
      RedisAfter(history[..|history| - 1])[CheckpointKey(last.network) := last.height]
  }

  // ---------- PostgreSQL ----------

  function UpperChar(c: char): char {
    if 'a' <= c <= 'z' then (c as int - 'a' as int + 'A' as int) as char else c
  }

  /** strings.ToUpper on ASCII. */
  function ToUpper(s: string): (u: string)
    ensures |u| == |s|
  {
    seq(|s|, i requires 0 <= i < |s| => UpperChar(s[i]))
  }

  /** One is a lower-case ASCII letter and the other the same letter in upper case. */
  predicate IsCapitalOf(c: char, d: char) {
    'a' <= c <= 'z' && c as int - 32 == d as int
  }

  predicate SameButCase(a: string, b: string) {
    |a| == |b| && forall i :: 0 <= i < |a| ==> a[i] == b[i] || IsCapitalOf(a[i], b[i]) || IsCapitalOf(b[i], a[i])
  }

  /** Two names become one exactly if they differ in the case of letters only. */
  lemma ToUpperExactly(a: string, b: string)
    ensures ToUpper(a) == ToUpper(b) <==> SameButCase(a, b)
  {
    assert forall i :: 0 <= i < |a| ==> ToUpper(a)[i] == UpperChar(a[i]);
    assert forall i :: 0 <= i < |b| ==> ToUpper(b)[i] == UpperChar(b[i]);
    if SameButCase(a, b) {
      assert ToUpper(a) == ToUpper(b);
    }
    if ToUpper(a) == ToUpper(b) {
      forall i | 0 <= i < |a| ensures a[i] == b[i] || IsCapitalOf(a[i], b[i]) || IsCapitalOf(b[i], a[i]) {
        assert ToUpper(a)[i] == ToUpper(b)[i];
      }
    }
  }

  /** Exactly the names without a lower-case letter stay as they are. */
  lemma ToUpperFixes(s: string)
    ensures ToUpper(s) == s <==> forall i :: 0 <= i < |s| ==> !('a' <= s[i] <= 'z')
  {
    assert forall i :: 0 <= i < |s| ==> ToUpper(s)[i] == UpperChar(s[i]);
  }

  datatype CheckpointRow = CheckpointRow(network: string, height: int64)

  function InsertIfNotExists(rows: seq<CheckpointRow>, row: CheckpointRow): seq<CheckpointRow> {
    if row in rows then rows else rows + [row]
  }

  /** ORDER BY height DESC LIMIT 1. */
  function LatestByNetwork(rows: seq<CheckpointRow>, network: string): (r: Option<int64>)
    ensures r.None? ==> forall w :: w in rows ==> w.network != network
    ensures r.Some? ==> CheckpointRow(network, r.value) in rows
    ensures r.Some? ==> forall w :: w in rows && w.network == network ==> w.height <= r.value
  {
    if rows == [] then None
    else
      var rest := LatestByNetwork(rows[..|rows| - 1], network);
      var w := rows[|rows| - 1];
      assert rows == rows[..|rows| - 1] + [w];
      if w.network == network && (rest.None? || rest.value <= w.height) then Some(w.height) else rest
  }

  function PgLoad(rows: seq<CheckpointRow>, network: string): Result<Hex, LoadError> {
    match LatestByNetwork(rows, ToUpper(network))
    case None => Failure(NoCheckpointFound)
    case Some(height) => Success(HexFromInt(height))
  }

  predicate UniqueRows(rows: seq<CheckpointRow>) {
    forall i, j :: 0 <= i < j < |rows| ==> rows[i] != rows[j]
  }

  class PostgresCheckpoints {
    var rows: seq<CheckpointRow>

    /** The constraint chainstream_checkpoint_unique. */
    ghost predicate Valid()
      reads this
    {
      UniqueRows(rows)
    }

    constructor ()
      ensures Valid() && rows == []
    {
      rows := [];
    }

    /** Heights shorter than two characters make the source panic in Int. */
    method SaveCheckpoint(network: string, height: Hex)
      requires Valid() && |height| >= 2
      modifies this
      ensures Valid()
      ensures rows == InsertIfNotExists(old(rows), CheckpointRow(ToUpper(network), Int(height)))
    {
      var row := CheckpointRow(ToUpper(network), Int(height));
      if row !in rows {
        rows := rows + [row];
      }
    }

    method LoadLatestCheckpoint(network: string, queryFails: bool) returns (r: Result<Hex, LoadError>)
      ensures r == if queryFails then Failure(StoreError) else PgLoad(rows, network)
    {
      if queryFails {
        return Failure(StoreError);
      }
      var best: Option<int64> := None;
      var upper := ToUpper(network);
      for i := 0 to |rows|
        invariant best == LatestByNetwork(rows[..i], upper)
      {
        assert rows[..i + 1][..i] == rows[..i];
        if rows[i].network == upper && (best.None? || best.value <= rows[i].height) {
          best := Some(rows[i].height);
        }
      }
      assert rows[..|rows|] == rows;
      match best
      case None => return Failure(NoCheckpointFound);
      case Some(height) => return Success(HexFromInt(height));
    }

    method Replay(history: seq<Save>)
      requires Valid() && rows == [] && Savable(history)
      modifies this
      ensures Valid() && rows == PgAfter(history)
    {
      for i := 0 to |history|
        invariant Valid() && rows == PgAfter(history[..i])
      {
        SaveCheckpoint(history[i].network, history[i].height);
        assert history[..i + 1][..i] == history[..i];
      }
      assert history[..|history|] == history;
    }
  }

  predicate Savable(history: seq<Save>) {
    forall i :: 0 <= i < |history| ==> |history[i].height| >= 2
  }

  function PgAfter(history: seq<Save>): seq<CheckpointRow>
    requires Savable(history)
  {
    if history == [] then []
    else
      var last := history[|history| - 1];
      InsertIfNotExists(PgAfter(history[..|history| - 1]), CheckpointRow(ToUpper(last.network), Int(last.height)))
  }

  // ---------- what a load returns after any history ----------

  /** The heights saved for a network, oldest first. */
  function SavedFor(history: seq<Save>, network: string): seq<Hex> {
    if history == [] then []
    else
      var rest := SavedFor(history[..|history| - 1], network);
      var last := history[|history| - 1];
      if last.network == network then rest + [last.height] else rest
  }

  lemma {:induction false} RedisKeepsTheLast(history: seq<Save>, network: string)
    ensures var hs := SavedFor(history, network);
            var key := CheckpointKey(network);
            && (key in RedisAfter(history) <==> hs != [])
            && (hs != [] ==> RedisAfter(history)[key] == hs[|hs| - 1])
  {
    if history != [] {
      RedisKeepsTheLast(history[..|history| - 1], network);
      CheckpointKeysDiffer(history[|history| - 1].network, network);
    }
  }

  /** Redis loads the last height saved for exactly this network name, if it is a valid Hex. */
  lemma RedisLoadsTheLast(history: seq<Save>, network: string)
    ensures var hs := SavedFor(history, network);
            RedisLoad(RedisAfter(history), network) ==
            if hs == [] then Failure(NoCheckpointFound)
            else if ValidHex(hs[|hs| - 1]) then Success(hs[|hs| - 1]) else Failure(InvalidHex)
  {
    RedisKeepsTheLast(history, network);
  }

  lemma {:induction false} PgRowsExactly(history: seq<Save>, row: CheckpointRow)
    requires Savable(history)
    ensures row in PgAfter(history)
            <==> exists i :: 0 <= i < |history| && row == CheckpointRow(ToUpper(history[i].network), Int(history[i].height))
  {
    if history != [] {
      var n := |history| - 1;
      PgRowsExactly(history[..n], row);
      if row in PgAfter(history[..n]) {
        var i :| 0 <= i < n && row == CheckpointRow(ToUpper(history[..n][i].network), Int(history[..n][i].height));
        assert history[..n][i] == history[i];
      }
      if i :| 0 <= i < |history| && row == CheckpointRow(ToUpper(history[i].network), Int(history[i].height)) {
        if i < n {
          assert history[..n][i] == history[i];
        }
      }
    }
  }

  /** A height saved under a name with this upper-case form. */
  ghost predicate SavedUnder(history: seq<Save>, network: string, height: int)
    requires Savable(history)
  {
    exists i :: 0 <= i < |history| && ToUpper(history[i].network) == ToUpper(network) && Int(history[i].height) == height
  }

  /** PostgreSQL loads the maximum of everything saved under the upper-cased network name. */
  lemma PgLoadsTheMaximum(history: seq<Save>, network: string)
    requires Savable(history)
    ensures var r := PgLoad(PgAfter(history), network);
            && (r.Success? ==> |r.value| >= 2 && SavedUnder(history, network, Int(r.value)))
            && (r.Failure? ==> r.error == NoCheckpointFound)
    ensures forall i :: 0 <= i < |history| && ToUpper(history[i].network) == ToUpper(network) ==>
              && PgLoad(PgAfter(history), network).Success?
              && Int(history[i].height) <= Int(PgLoad(PgAfter(history), network).value)
  {
    var rows := PgAfter(history);
    var latest := LatestByNetwork(rows, ToUpper(network));
    forall i | 0 <= i < |history|
      ensures CheckpointRow(ToUpper(history[i].network), Int(history[i].height)) in rows
    {
      PgRowsExactly(history, CheckpointRow(ToUpper(history[i].network), Int(history[i].height)));
    }
    if latest.Some? {
      PgRowsExactly(history, CheckpointRow(ToUpper(network), latest.value));
      IntOfHexFromInt(latest.value);
    }
  }

  lemma RowOfAnother(rows: seq<CheckpointRow>, row: CheckpointRow, network: string)
    requires row.network != network
    ensures LatestByNetwork(InsertIfNotExists(rows, row), network) == LatestByNetwork(rows, network)
  {
    assert (rows + [row])[..|rows|] == rows;
  }

  /** A save under a name that differs in more than case changes nothing for a network. */
  lemma PgKeepsNetworksApart(history: seq<Save>, s: Save, network: string)
    requires Savable(history) && |s.height| >= 2 && !SameButCase(s.network, network)
    ensures Savable(history + [s])
    ensures PgLoad(PgAfter(history + [s]), network) == PgLoad(PgAfter(history), network)
  {
    ToUpperExactly(s.network, network);
    hide Int, HexFromInt, SameButCase, ToUpper, LatestByNetwork, InsertIfNotExists;
    var all := history + [s];
    assert all[..|all| - 1] == history && all[|all| - 1] == s;
    RowOfAnother(PgAfter(history), CheckpointRow(ToUpper(s.network), Int(s.height)), ToUpper(network));
  }

  /** And a loaded checkpoint was saved under the network's own name, but for case. */
  lemma PgLoadsOwnCheckpoint(history: seq<Save>, network: string)
    requires Savable(history) && PgLoad(PgAfter(history), network).Success?
    ensures var h := PgLoad(PgAfter(history), network).value;
            |h| >= 2 && exists s :: s in history && SameButCase(s.network, network) && Int(s.height) == Int(h)
  {
    hide Int, SameButCase;
    PgLoadsTheMaximum(history, network);
    var h := PgLoad(PgAfter(history), network).value;
    var i :| 0 <= i < |history| && ToUpper(history[i].network) == ToUpper(network) && Int(history[i].height) == Int(h);
    ToUpperExactly(history[i].network, network);
    assert history[i] in history;
  }

  lemma LatestDependsOnMembers(rows1: seq<CheckpointRow>, rows2: seq<CheckpointRow>, network: string)
    requires forall w :: w in rows1 <==> w in rows2
    ensures LatestByNetwork(rows1, network) == LatestByNetwork(rows2, network)
  {
    var r1, r2 := LatestByNetwork(rows1, network), LatestByNetwork(rows2, network);
    if r1.Some? {
      assert CheckpointRow(network, r1.value) in rows2;
    }
    if r2.Some? {
      assert CheckpointRow(network, r2.value) in rows1;
    }
  }

  /** Order and repetition of the saves do not matter to PostgreSQL. */
  lemma PgForgetsOrder(h1: seq<Save>, h2: seq<Save>, network: string)
    requires Savable(h1) && Savable(h2)
    requires forall s :: s in h1 <==> s in h2
    ensures PgLoad(PgAfter(h1), network) == PgLoad(PgAfter(h2), network)
  {
    hide Int, ToUpper, PgAfter, LatestByNetwork;
    forall w
      ensures w in PgAfter(h1) <==> w in PgAfter(h2)
    {
      PgRowsExactly(h1, w);
      PgRowsExactly(h2, w);
      if i :| 0 <= i < |h1| && w == CheckpointRow(ToUpper(h1[i].network), Int(h1[i].height)) {
        assert h1[i] in h2;
        var j :| 0 <= j < |h2| && h2[j] == h1[i];
      }
      if i :| 0 <= i < |h2| && w == CheckpointRow(ToUpper(h2[i].network), Int(h2[i].height)) {
        assert h2[i] in h1;
        var j :| 0 <= j < |h1| && h1[j] == h2[i];
      }
    }
    LatestDependsOnMembers(PgAfter(h1), PgAfter(h2), ToUpper(network));
  }

  lemma {:induction false} SavedForMember(history: seq<Save>, network: string, height: Hex)
    ensures height in SavedFor(history, network) <==> Save(network, height) in history
  {
    if history != [] {
      var n := |history| - 1;
      SavedForMember(history[..n], network, height);
      assert history == history[..n] + [history[n]];
    }
  }

  /** The stores agree on a network with a valid last checkpoint exactly when that last
      height is the maximum saved under the upper-cased name. */
  lemma StoresAgreeExactly(history: seq<Save>, network: string)
    requires Savable(history)
    requires var hs := SavedFor(history, network); hs != [] && ValidHex(hs[|hs| - 1])
    ensures var hs := SavedFor(history, network);
            var redis := RedisLoad(RedisAfter(history), network);
            var pg := PgLoad(PgAfter(history), network);
            && redis.Success? && pg.Success? && |redis.value| >= 2 && |pg.value| >= 2
            && Int(redis.value) <= Int(pg.value)
            && (Int(redis.value) == Int(pg.value)
                <==> forall i :: 0 <= i < |history| && ToUpper(history[i].network) == ToUpper(network)
                                 ==> Int(history[i].height) <= Int(redis.value))
  {
    var hs := SavedFor(history, network);
    RedisLoadsTheLast(history, network);
    PgLoadsTheMaximum(history, network);
    SavedForMember(history, network, hs[|hs| - 1]);
    ValidHexExactly(hs[|hs| - 1]);
    var i :| 0 <= i < |history| && history[i] == Save(network, hs[|hs| - 1]);
    assert ToUpper(history[i].network) == ToUpper(network);
  }
}
