/**
 How a Solana block becomes a list of transactions (internal/infra/blockchain/solana/block.go)
 and what the wallet index makes of it: every transfer of one Solana transaction carries the
 same hash, its first signature.
 */
module Solana {
  import opened Wrappers
  import opened Chainstream
  import opened WalletWatch

  datatype Parsed = Parsed(kind: string, source: string, destination: string)

  datatype SolanaTransaction = SolanaTransaction(signatures: seq<string>, instructions: seq<Option<Parsed>>)

  predicate IsTransfer(i: Option<Parsed>) {
    i.Some? && i.value.kind == "transfer"
  }

  function Transfers(hash: string, instructions: seq<Option<Parsed>>): seq<Transaction> {
    if instructions == [] then []
    else
      var last := instructions[|instructions| - 1];
      Transfers(hash, instructions[..|instructions| - 1])
      + if IsTransfer(last) then [Transaction(hash, last.value.source, last.value.destination)] else []
  }

  function StreamTransactions(t: SolanaTransaction): (r: seq<Transaction>)
    ensures r != [] ==> t.signatures != []
  {
    if t.signatures == [] then [] else Transfers(t.signatures[0], t.instructions)
  }

  function Flattened(block: seq<SolanaTransaction>): seq<Transaction> {
    if block == [] then []
    else Flattened(block[..|block| - 1]) + StreamTransactions(block[|block| - 1])
  }

  method ToStreamTransactions(t: SolanaTransaction) returns (txs: seq<Transaction>)
    ensures txs == StreamTransactions(t)
  {
    txs := [];
    if |t.signatures| == 0 {
      return;
    }
    var transactionHash := t.signatures[0];
    for i := 0 to |t.instructions|
      invariant txs == Transfers(transactionHash, t.instructions[..i])
    {
      var instruction := t.instructions[i];
      assert t.instructions[..i + 1][..i] == t.instructions[..i];
      if instruction.None? || instruction.value.kind != "transfer" {
        continue;
      }
      txs := txs + [Transaction(transactionHash, instruction.value.source, instruction.value.destination)];
    }
    assert t.instructions[..|t.instructions|] == t.instructions;
  }

  method ToStreamBlock(block: seq<SolanaTransaction>) returns (txs: seq<Transaction>)
    ensures txs == Flattened(block)
  {
    txs := [];
    for i := 0 to |block|
      invariant txs == Flattened(block[..i])
    {
      var more := ToStreamTransactions(block[i]);
      assert block[..i + 1][..i] == block[..i];
      txs := txs + more;
    }
    assert block[..|block|] == block;
  }

  /** In order, and one for one: the list of a transaction or a block is that of its parts. */
  lemma {:induction false} TransfersConcat(hash: string, a: seq<Option<Parsed>>, b: seq<Option<Parsed>>)
    ensures Transfers(hash, a + b) == Transfers(hash, a) + Transfers(hash, b)
  {
    if b == [] {
      assert a + b == a;
    } else {
      assert (a + b)[..|a + b| - 1] == a + b[..|b| - 1];
      TransfersConcat(hash, a, b[..|b| - 1]);
    }
  }

  lemma OneTransfer(hash: string, i: Option<Parsed>)
    ensures Transfers(hash, [i]) ==
            if i.Some? && i.value.kind == "transfer" then [Transaction(hash, i.value.source, i.value.destination)] else []
  {
    assert [i][..0] == [];
  }

  lemma {:induction false} FlattenedConcat(a: seq<SolanaTransaction>, b: seq<SolanaTransaction>)
    ensures Flattened(a + b) == Flattened(a) + Flattened(b)
  {
    hide StreamTransactions;
    if b == [] {
      assert a + b == a;
    } else {
      assert (a + b)[..|a + b| - 1] == a + b[..|b| - 1];
      FlattenedConcat(a, b[..|b| - 1]);
    }
  }

  lemma OneFlattened(t: SolanaTransaction)
    ensures Flattened([t]) == if t.signatures == [] then [] else Transfers(t.signatures[0], t.instructions)
  {
    assert [t][..0] == [];
  }

  lemma {:induction false} TransfersExactly(hash: string, instructions: seq<Option<Parsed>>, t: Transaction)
    ensures t in Transfers(hash, instructions)
            <==> t.hash == hash && Some(Parsed("transfer", t.from, t.to)) in instructions
  {
    if instructions != [] {
      var n := |instructions| - 1;
      TransfersExactly(hash, instructions[..n], t);
      assert instructions == instructions[..n] + [instructions[n]];
    }
  }

  lemma {:induction false} FlattenedContains(block: seq<SolanaTransaction>, s: SolanaTransaction, t: Transaction)
    requires s in block && t in StreamTransactions(s)
    ensures t in Flattened(block)
  {
    var n := |block| - 1;
    assert block == block[..n] + [block[n]];
    if s != block[n] {
      FlattenedContains(block[..n], s, t);
    }
  }

  predicate CarriesTransfer(s: SolanaTransaction, t: Transaction) {
    s.signatures != [] && t.hash == s.signatures[0] && Some(Parsed("transfer", t.from, t.to)) in s.instructions
  }

  lemma {:induction false} FlattenedComesFrom(block: seq<SolanaTransaction>, t: Transaction)
    requires t in Flattened(block)
    ensures exists s :: s in block && CarriesTransfer(s, t)
  {
    var n := |block| - 1;
    if t in Flattened(block[..n]) {
      FlattenedComesFrom(block[..n], t);
      var s :| s in block[..n] && CarriesTransfer(s, t);
      assert s in block;
    } else {
      TransfersExactly(block[n].signatures[0], block[n].instructions, t);
      assert block[n] in block && CarriesTransfer(block[n], t);
    }
  }

  /** Exactly the transfers of the signed transactions survive the flattening. */
  lemma FlattenedExactly(block: seq<SolanaTransaction>, t: Transaction)
    ensures t in Flattened(block) <==> exists s :: s in block && CarriesTransfer(s, t)
  {
    if t in Flattened(block) {
      FlattenedComesFrom(block, t);
    }
    if exists s :: s in block && CarriesTransfer(s, t) {
      var s :| s in block && CarriesTransfer(s, t);
      TransfersExactly(s.signatures[0], s.instructions, t);
      FlattenedContains(block, s, t);
    }
  }

  /** A wallet with two different transfers in one Solana transaction is not told both: the
      index then differs from the naive filter. */
  lemma SharedSignatureLosesTransfers(block: seq<SolanaTransaction>, s: SolanaTransaction, wallet: string,
      t: Transaction, u: Transaction)
    requires s in block && t in StreamTransactions(s) && u in StreamTransactions(s) && t != u
    requires Involves(t, wallet) && Involves(u, wallet)
    ensures Latest(Flattened(block), wallet) != Naive(Flattened(block), wallet)
    ensures !(t in Latest(Flattened(block), wallet) && u in Latest(Flattened(block), wallet))
  {
    FlattenedContains(block, s, t);
    FlattenedContains(block, s, u);
    TransfersExactly(s.signatures[0], s.instructions, t);
    TransfersExactly(s.signatures[0], s.instructions, u);
    NaiveExactly(Flattened(block), wallet);
  }

  // ---------- who is told another's transfer ----------

  lemma {:induction false} LastOfConcat(a: seq<Transaction>, b: seq<Transaction>, hash: string)
    ensures LastWithHash(a + b, hash) == if LastWithHash(b, hash).Some? then LastWithHash(b, hash) else LastWithHash(a, hash)
  {
    if b == [] {
      assert a + b == a;
    } else {
      var n := |b| - 1;
      assert (a + b)[..|a + b| - 1] == a + b[..n];
      LastOfConcat(a, b[..n], hash);
    }
  }

  /** Every transfer of one transaction has its first signature as hash, so the last is the
      last with that hash. */
  lemma LastTransfer(s: SolanaTransaction, hash: string)
    ensures var txs := StreamTransactions(s);
            LastWithHash(txs, hash)
            == if txs != [] && s.signatures[0] == hash then Some(txs[|txs| - 1]) else None
  {
    var txs := StreamTransactions(s);
    forall t | t in txs ensures t.hash == s.signatures[0] {
      TransfersExactly(s.signatures[0], s.instructions, t);
    }
    if txs != [] {
      assert txs[|txs| - 1] in txs;
    }
    if LastWithHash(txs, hash).Some? {
      assert LastWithHash(txs, hash).value in txs;
    }
  }

  /** No two transactions of the block share their first signature. */
  ghost predicate SignedApart(block: seq<SolanaTransaction>) {
    forall i, j :: 0 <= i < j < |block| && block[i].signatures != [] && block[j].signatures != []
                   ==> block[i].signatures[0] != block[j].signatures[0]
  }

  lemma {:induction false} LastInBlock(block: seq<SolanaTransaction>, s: SolanaTransaction)
    requires SignedApart(block) && s in block && StreamTransactions(s) != []
    ensures var txs := StreamTransactions(s);
            LastWithHash(Flattened(block), s.signatures[0]) == Some(txs[|txs| - 1])
  {
    hide StreamTransactions;
    var n := |block| - 1;
    var h := s.signatures[0];
    LastOfConcat(Flattened(block[..n]), StreamTransactions(block[n]), h);
    LastTransfer(block[n], h);
    if s != block[n] {
      assert block == block[..n] + [block[n]];
      var i :| 0 <= i < n && block[i] == s;
      assert StreamTransactions(block[n]) != [] ==> block[n].signatures[0] != h;
      LastInBlock(block[..n], s);
    }
  }

  /** A wallet of a Solana block is told only transfers it takes part in exactly when it
      takes part in the last transfer of every transaction it takes part in. */
  lemma ToldOnlyOwnExactly(block: seq<SolanaTransaction>, wallet: string)
    requires SignedApart(block)
    ensures Latest(Flattened(block), wallet) <= Naive(Flattened(block), wallet)
            <==> forall s :: s in block && TakesPart(s, wallet) ==> TakesPartLast(s, wallet)
  {
    WalletWatch.ToldOnlyOwnExactly(Flattened(block), wallet);
    forall s, t | s in block && t in StreamTransactions(s) && Involves(t, wallet)
      ensures t in Flattened(block)
      ensures Involves(LastOf(Flattened(block), t), wallet) <==> TakesPartLast(s, wallet)
    {
      FlattenedContains(block, s, t);
      TransfersExactly(s.signatures[0], s.instructions, t);
      LastInBlock(block, s);
    }
    forall t | t in Flattened(block) ensures exists s :: s in block && t in StreamTransactions(s) {
      FlattenedComesFrom(block, t);
      var s :| s in block && CarriesTransfer(s, t);
      TransfersExactly(s.signatures[0], s.instructions, t);
      assert t in StreamTransactions(s);
    }
  }

  ghost predicate TakesPart(s: SolanaTransaction, wallet: string) {
    exists t :: t in StreamTransactions(s) && Involves(t, wallet)
  }

  predicate TakesPartLast(s: SolanaTransaction, wallet: string) {
    var txs := StreamTransactions(s);
    txs != [] && Involves(txs[|txs| - 1], wallet)
  }

  /** So a wallet can be told a transfer it has no part in: of two transfers in one
      transaction, the recipient of the first is told the second. */
  lemma ToldAnothersTransfer(signature: string, a: string, b: string, c: string)
    requires b != a && b != c
    ensures var block := [SolanaTransaction([signature],
                            [Some(Parsed("transfer", a, b)), Some(Parsed("transfer", a, c))])];
            Latest(Flattened(block), b) == {Transaction(signature, a, c)}
  {
    var i1, i2 := Some(Parsed("transfer", a, b)), Some(Parsed("transfer", a, c));
    var block := [SolanaTransaction([signature], [i1, i2])];
    var t1, t2 := Transaction(signature, a, b), Transaction(signature, a, c);
    assert [i1, i2][..1] == [i1] && [i1][..0] == [] && block[..0] == [];
    assert Transfers(signature, [i1]) == [t1];
    assert Flattened(block) == [t1, t2];
    assert t1 in [t1, t2] && t1.hash in HashesOf([t1, t2], b);
    assert LastWithHash([t1, t2], signature) == Some(t2);
  }
}
