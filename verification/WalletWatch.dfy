/** Wallet matching and notification (internal/walletwatch/wallet.go). */
module WalletWatch {
  import opened Wrappers
  import opened Chainstream
  import opened Collections
  import Spec = GuardSpec
  import R = RedisGuard
  import P = PostgresGuard
  import opened Checkpoints

  // ---------- what the index should contain ----------

  predicate Involves(tx: Transaction, wallet: string) {
    tx.from == wallet || tx.to == wallet
  }

  /** The last transaction of the block with this hash. */
  function LastWithHash(txs: seq<Transaction>, hash: string): (r: Option<Transaction>)
    ensures r.Some? ==> r.value in txs && r.value.hash == hash
    ensures r.None? ==> forall t :: t in txs ==> t.hash != hash
  {
    if txs == [] then None
    else
      var n := |txs| - 1;
      assert txs == txs[..n] + [txs[n]];
      if txs[n].hash == hash then Some(txs[n]) else LastWithHash(txs[..n], hash)
  }

  /** The last transaction of the block with this one's hash. */
  function LastOf(txs: seq<Transaction>, t: Transaction): (r: Transaction)
    requires t in txs
    ensures r in txs && r.hash == t.hash
  {
    LastWithHash(txs, t.hash).value
  }

  ghost function HashesOf(txs: seq<Transaction>, wallet: string): set<string> {
    set t | t in txs && Involves(t, wallet) :: t.hash
  }

  ghost function Wallets(txs: seq<Transaction>): set<string> {
    (set t | t in txs :: t.from) + (set t | t in txs :: t.to)
  }

  /** For each of these hashes, the block's last transaction with it. */
  ghost function LatestAmong(txs: seq<Transaction>, hashes: set<string>): set<Transaction> {
    set t | t in txs && t.hash in hashes && LastWithHash(txs, t.hash) == Some(t)
  }

  ghost function Latest(txs: seq<Transaction>, wallet: string): set<Transaction> {
    LatestAmong(txs, HashesOf(txs, wallet))
  }

  /** The naive filter by sender or recipient. */
  ghost function Naive(txs: seq<Transaction>, wallet: string): set<Transaction> {
    set t | t in txs && Involves(t, wallet)
  }

  /** The index is the naive filter for a wallet exactly when each of its transactions is
      the last one in the block with its hash. */
  lemma NaiveExactly(txs: seq<Transaction>, wallet: string)
    ensures Latest(txs, wallet) == Naive(txs, wallet)
            <==> forall t :: t in txs && Involves(t, wallet) ==> LastWithHash(txs, t.hash) == Some(t)
  {
    if Latest(txs, wallet) == Naive(txs, wallet) {
      forall t | t in txs && Involves(t, wallet) ensures LastWithHash(txs, t.hash) == Some(t) {
        assert t in Naive(txs, wallet);
      }
    }
    if forall t :: t in txs && Involves(t, wallet) ==> LastWithHash(txs, t.hash) == Some(t) {
      forall t | t in Latest(txs, wallet) ensures t in Naive(txs, wallet) {
        var u :| u in txs && Involves(u, wallet) && u.hash == t.hash;
        assert LastWithHash(txs, u.hash) == Some(u);
      }
    }
  }

  /** In particular whenever equal hashes mean equal transactions. */
  lemma NaiveWhenHashesIdentify(txs: seq<Transaction>, wallet: string)
    requires forall t, u :: t in txs && u in txs && t.hash == u.hash ==> t == u
    ensures Latest(txs, wallet) == Naive(txs, wallet)
  {
    NaiveExactly(txs, wallet);
  }

  /** A wallet is told only transactions it takes part in exactly when, for each hash it is
      involved in, the last transaction of the block with that hash involves it. */
  lemma ToldOnlyOwnExactly(txs: seq<Transaction>, wallet: string)
    ensures Latest(txs, wallet) <= Naive(txs, wallet)
            <==> forall t :: t in txs && Involves(t, wallet) ==> Involves(LastOf(txs, t), wallet)
  {
    if Latest(txs, wallet) <= Naive(txs, wallet) {
      forall t | t in txs && Involves(t, wallet) ensures Involves(LastOf(txs, t), wallet) {
        assert t.hash in HashesOf(txs, wallet);
        assert LastOf(txs, t) in Latest(txs, wallet);
      }
    }
    if forall t :: t in txs && Involves(t, wallet) ==> Involves(LastOf(txs, t), wallet) {
      forall l | l in Latest(txs, wallet) ensures l in Naive(txs, wallet) {
        var t :| t in txs && Involves(t, wallet) && t.hash == l.hash;
        assert LastOf(txs, t) == l;
      }
    }
  }

  /** One entry per distinct hash. */
  lemma LatestHasOnePerHash(txs: seq<Transaction>, wallet: string)
    ensures forall t, u :: t in Latest(txs, wallet) && u in Latest(txs, wallet) && t.hash == u.hash ==> t == u
    ensures (set t | t in Latest(txs, wallet) :: t.hash) == HashesOf(txs, wallet)
  {
    forall h | h in HashesOf(txs, wallet) ensures h in (set t | t in Latest(txs, wallet) :: t.hash) {
      var t := LastWithHash(txs, h).value;
      assert t in Latest(txs, wallet);
    }
  }

  // ---------- getTransactionsByWallet ----------

  /** The registered wallets of the block's network. Only a contract of the stores: the
      answer is a distinct list of the addresses asked for that are watched, or the error
      `failure` of the query. */
  class WalletStorage {
    const failure: Option<Error>
    var watched: set<string>

    constructor (watched: set<string>, failure: Option<Error>)
      ensures this.watched == watched && this.failure == failure
    {
      this.watched, this.failure := watched, failure;
    }

    method FilterWatchedWallets(addresses: seq<string>) returns (r: Result<seq<string>, Error>)
      requires Distinct(addresses)
      ensures failure.Some? ==> r == Failure(failure.value)
      ensures failure.None? ==> r.Success? && Distinct(r.value)
      ensures r.Success? ==> forall a :: a in r.value <==> a in addresses && a in watched
    {
      if failure.Some? {
        return Failure(failure.value);
      }
      var matched := [];
      for i := 0 to |addresses|
        invariant Distinct(matched)
        invariant forall a :: a in matched <==> a in addresses[..i] && a in watched
      {
        assert addresses[..i + 1] == addresses[..i] + [addresses[i]];
        assert addresses[i] !in addresses[..i];
        if addresses[i] in watched {
          matched := matched + [addresses[i]];
        }
      }
      assert addresses[..|addresses|] == addresses;
      r := Success(matched);
    }
  }

  /** The map wallet -> hashes after the first loop. */
  ghost function HashIndex(txs: seq<Transaction>): map<string, set<string>> {
    if txs == [] then map[]
    else
      var tx := txs[|txs| - 1];
      WithValue(WithValue(HashIndex(txs[..|txs| - 1]), tx.from, tx.hash), tx.to, tx.hash)
  }

  lemma {:induction false} HashIndexIsHashesOf(txs: seq<Transaction>, wallet: string)
    ensures wallet in HashIndex(txs) <==> wallet in Wallets(txs)
    ensures wallet in HashIndex(txs) ==> HashIndex(txs)[wallet] == HashesOf(txs, wallet)
    ensures wallet !in HashIndex(txs) ==> HashesOf(txs, wallet) == {}
  {
    if txs != [] {
      var n := |txs| - 1;
      HashIndexIsHashesOf(txs[..n], wallet);
      assert txs == txs[..n] + [txs[n]];
      assert HashesOf(txs, wallet)
          == HashesOf(txs[..n], wallet) + if Involves(txs[n], wallet) then {txs[n].hash} else {};
      assert wallet in Wallets(txs) <==> wallet in Wallets(txs[..n]) || Involves(txs[n], wallet);
    }
  }

  ghost predicate IsLastByHash(m: map<string, Transaction>, txs: seq<Transaction>) {
    forall h :: LastWithHash(txs, h) == if h in m then Some(m[h]) else None
  }

  lemma LastByHashStep(m: map<string, Transaction>, txs: seq<Transaction>, tx: Transaction)
    requires IsLastByHash(m, txs)
    ensures IsLastByHash(m[tx.hash := tx], txs + [tx])
  {
    assert (txs + [tx])[..|txs|] == txs;
  }

  lemma WalletsStep(txs: seq<Transaction>, tx: Transaction)
    ensures Wallets(txs + [tx]) == Wallets(txs) + (set v | v in [tx.from, tx.to])
    ensures HashIndex(txs + [tx]) == WithValue(WithValue(HashIndex(txs), tx.from, tx.hash), tx.to, tx.hash)
  {
    assert (txs + [tx])[..|txs|] == txs;
  }

  /** One turn of the first loop, on the two shared structures. */
  method IndexOne(tx: Transaction, walletsSet: Set<string>, transactionsByWallet: SetMap)
    requires transactionsByWallet.Valid() && walletsSet as object !in transactionsByWallet.Sets()
    modifies walletsSet, transactionsByWallet, transactionsByWallet.Sets()
    ensures transactionsByWallet.Valid() && walletsSet as object !in transactionsByWallet.Sets()
    ensures fresh(transactionsByWallet.Sets() - old(transactionsByWallet.Sets()))
    ensures walletsSet.elements == old(walletsSet.elements) + (set v | v in [tx.from, tx.to])
    ensures transactionsByWallet.View()
            == WithValue(WithValue(old(transactionsByWallet.View()), tx.from, tx.hash), tx.to, tx.hash)
  {
    hide WithValue;
    walletsSet.Add([tx.from, tx.to]);
    assert transactionsByWallet.View() == old(transactionsByWallet.View());
    transactionsByWallet.AddUnder(tx.from, tx.hash);
    transactionsByWallet.AddUnder(tx.to, tx.hash);
  }

  method IndexTransactions(txs: seq<Transaction>)
    returns (walletsSet: Set<string>, transactionsMap: map<string, Transaction>, transactionsByWallet: SetMap)
    ensures fresh(walletsSet) && fresh(transactionsByWallet) && fresh(transactionsByWallet.Sets())
    ensures transactionsByWallet.Valid()
    ensures walletsSet.elements == Wallets(txs)
    ensures IsLastByHash(transactionsMap, txs)
    ensures transactionsByWallet.View() == HashIndex(txs)
  {
    hide IsLastByHash, LastWithHash, Wallets, HashIndex, WithValue;
    walletsSet := new Set();
    transactionsMap := map[];
    transactionsByWallet := new SetMap();
    NothingIndexed();
    for i := 0 to |txs|
      invariant fresh(walletsSet) && fresh(transactionsByWallet) && fresh(transactionsByWallet.Sets())
      invariant transactionsByWallet.Valid() && walletsSet as object !in transactionsByWallet.Sets()
      invariant walletsSet.elements == Wallets(txs[..i])
      invariant IsLastByHash(transactionsMap, txs[..i])
      invariant transactionsByWallet.View() == HashIndex(txs[..i])
    {
      var tx := txs[i];
      assert txs[..i + 1] == txs[..i] + [tx];
      WalletsStep(txs[..i], tx);
      LastByHashStep(transactionsMap, txs[..i], tx);
      transactionsMap := transactionsMap[tx.hash := tx];
      IndexOne(tx, walletsSet, transactionsByWallet);
    }
    assert txs[..|txs|] == txs;
  }

  lemma NothingIndexed()
    ensures Wallets([]) == {} && HashIndex([]) == map[] && IsLastByHash(map[], [])
  {
  }

  lemma MapHasTheLast(m: map<string, Transaction>, txs: seq<Transaction>, h: string)
    requires IsLastByHash(m, txs) && LastWithHash(txs, h).Some?
    ensures h in m && m[h] == LastWithHash(txs, h).value
  {
    assert LastWithHash(txs, h) == if h in m then Some(m[h]) else None;
  }

  lemma LatestAmongStep(txs: seq<Transaction>, hashes: set<string>, h: string)
    requires h !in hashes && LastWithHash(txs, h).Some?
    ensures multiset(LatestAmong(txs, hashes + {h}))
            == multiset(LatestAmong(txs, hashes)) + multiset{LastWithHash(txs, h).value}
  {
    var t := LastWithHash(txs, h).value;
    assert LatestAmong(txs, hashes + {h}) == LatestAmong(txs, hashes) + {t};
    assert t !in LatestAmong(txs, hashes);
  }

  method Append(m: DefaultMap<string, seq<Transaction>>, address: string, tx: Transaction)
    requires m.default == []
    modifies m
    ensures m.data == old(m.data)[address := (if address in old(m.data) then old(m.data[address]) else []) + [tx]]
  {
    var txs := m.Get(address);
    m.Put(address, txs + [tx]);
  }

  /** The inner loop over the hashes of one wallet, in the order the map yields them. */
  method CollectTransactions(address: string, hashes: set<string>, transactionsMap: map<string, Transaction>,
      matchingTxsByWallet: DefaultMap<string, seq<Transaction>>, ghost txs: seq<Transaction>)
    requires IsLastByHash(transactionsMap, txs)
    requires forall h :: h in hashes ==> LastWithHash(txs, h).Some?
    requires hashes != {} && address !in matchingTxsByWallet.data && matchingTxsByWallet.default == []
    modifies matchingTxsByWallet
    ensures address in matchingTxsByWallet.data
    ensures matchingTxsByWallet.data == old(matchingTxsByWallet.data)[address := matchingTxsByWallet.data[address]]
    ensures multiset(matchingTxsByWallet.data[address]) == multiset(LatestAmong(txs, hashes))
  {
    hide LastWithHash, LatestAmong, IsLastByHash;
    var rest := hashes;
    ghost var collected: seq<Transaction> := [];
    LatestAmongNone(txs);
    assert hashes - hashes == {};
    while rest != {}
      invariant rest <= hashes
      invariant matchingTxsByWallet.data ==
                if collected == [] then old(matchingTxsByWallet.data) else old(matchingTxsByWallet.data)[address := collected]
      invariant collected == [] ==> rest == hashes
      invariant multiset(collected) == multiset(LatestAmong(txs, hashes - rest))
      decreases |rest|
    {
      var txHash :| txHash in rest;
      LatestAmongStep(txs, hashes - rest, txHash);
      assert hashes - rest + {txHash} == hashes - (rest - {txHash});
      MapHasTheLast(transactionsMap, txs, txHash);
      Append(matchingTxsByWallet, address, transactionsMap[txHash]);
      collected := collected + [transactionsMap[txHash]];
      rest := rest - {txHash};
    }
    assert hashes - {} == hashes;
  }

  lemma LatestAmongNone(txs: seq<Transaction>)
    ensures LatestAmong(txs, {}) == {}
  {
  }

  /** Exactly the watched wallets of the block, each with one transaction per distinct hash
      among those that involve it: the block's last transaction with that hash. */
  ghost predicate Exact(m: map<string, seq<Transaction>>, txs: seq<Transaction>, watched: set<string>) {
    && m.Keys == Wallets(txs) * watched
    && forall w :: w in m ==> multiset(m[w]) == multiset(Latest(txs, w))
  }

  lemma HashesAreKnown(txs: seq<Transaction>, wallet: string)
    ensures forall h :: h in HashesOf(txs, wallet) ==> LastWithHash(txs, h).Some?
    ensures wallet in Wallets(txs) ==> HashesOf(txs, wallet) != {}
  {
    if wallet in Wallets(txs) {
      var t :| t in txs && Involves(t, wallet);
      assert t.hash in HashesOf(txs, wallet);
    }
  }

  /** The second loop, over the watched wallets. */
  method CollectAll(watched: seq<string>, transactionsMap: map<string, Transaction>, transactionsByWallet: SetMap,
      ghost txs: seq<Transaction>)
    returns (matchingTxsByWallet: DefaultMap<string, seq<Transaction>>)
    requires IsLastByHash(transactionsMap, txs)
    requires transactionsByWallet.Valid() && transactionsByWallet.View() == HashIndex(txs)
    requires Distinct(watched) && forall a :: a in watched ==> a in Wallets(txs)
    modifies transactionsByWallet
    ensures fresh(matchingTxsByWallet)
    ensures matchingTxsByWallet.data.Keys == (set a | a in watched)
    ensures forall w :: w in matchingTxsByWallet.data ==>
              multiset(matchingTxsByWallet.data[w]) == multiset(Latest(txs, w))
  {
    hide IsLastByHash, LatestAmong, HashIndex, HashesOf, Wallets, LastWithHash;
    matchingTxsByWallet := new DefaultMap<string, seq<Transaction>>([]);
    for i := 0 to |watched|
      invariant transactionsByWallet.Valid() && transactionsByWallet.View() == HashIndex(txs)
      invariant fresh(matchingTxsByWallet) && matchingTxsByWallet.default == []
      invariant matchingTxsByWallet.data.Keys == (set a | a in watched[..i])
      invariant forall w :: w in matchingTxsByWallet.data ==>
                  multiset(matchingTxsByWallet.data[w]) == multiset(Latest(txs, w))
    {
      var address := watched[i];
      assert address in watched;
      HashIndexIsHashesOf(txs, address);
      HashesAreKnown(txs, address);
      var hashes := transactionsByWallet.Get(address);
      assert transactionsByWallet.View()[address] == hashes.elements;
      assert address !in watched[..i];
      CollectTransactions(address, hashes.elements, transactionsMap, matchingTxsByWallet, txs);
      assert watched[..i + 1] == watched[..i] + [address];
    }
    assert watched[..|watched|] == watched;
  }

  method GetTransactionsByWallet(txs: seq<Transaction>, walletStorage: WalletStorage)
    returns (r: Result<map<string, seq<Transaction>>, Error>)
    ensures if walletStorage.failure.Some? then r == Failure(walletStorage.failure.value)
            else r.Success? && Exact(r.value, txs, walletStorage.watched)
  {
    hide IsLastByHash, HashIndex, Wallets, Latest;
    var walletsSet, transactionsMap, transactionsByWallet := IndexTransactions(txs);
    var addresses := walletsSet.ToSlice();
    var watchedWallets := walletStorage.FilterWatchedWallets(addresses);
    if watchedWallets.Failure? {
      return Failure(watchedWallets.error);
    }
    var matching := CollectAll(watchedWallets.value, transactionsMap, transactionsByWallet, txs);
    r := Success(matching.data);
  }

  // ---------- notification ----------

  datatype Notification = Notification(wallet: string, txs: seq<Transaction>)

  /** `answers` are the sink's answers, call by call. */
  class TransactionNotifier {
    const answers: nat -> Option<Error>
    var calls: nat
    var sent: seq<Notification>

    constructor (answers: nat -> Option<Error>)
      ensures this.answers == answers && calls == 0 && sent == []
    {
      this.answers := answers;
      calls, sent := 0, [];
    }

    method NotifyTransactions(wallet: string, txs: seq<Transaction>) returns (err: Option<Error>)
      modifies this
      ensures err == answers(old(calls)) && calls == old(calls) + 1
      ensures sent == if err.None? then old(sent) + [Notification(wallet, txs)] else old(sent)
    {
      err := answers(calls);
      calls := calls + 1;
      if err.None? {
        sent := sent + [Notification(wallet, txs)];
      }
    }
  }

  /** From its call `from` on, the sink accepts these many notifications; an error is the
      answer to the call after them. */
  ghost predicate Accepted(answers: nat -> Option<Error>, from: nat, accepted: nat, err: Option<Error>) {
    && (forall k :: from <= k < from + accepted ==> answers(k).None?)
    && (err.Some? ==> answers(from + accepted) == err)
  }

  lemma NothingAccepted(answers: nat -> Option<Error>, from: nat)
    ensures Accepted(answers, from, 0, None)
  {
  }

  lemma OneMoreAnswer(answers: nat -> Option<Error>, from: nat, accepted: nat, err: Option<Error>)
    requires Accepted(answers, from, accepted, None) && answers(from + accepted) == err
    ensures if err.Some? then Accepted(answers, from, accepted, err) else Accepted(answers, from, accepted + 1, None)
  {
  }

  function NotifiedWallets(notes: seq<Notification>): set<string> {
    set n | n in notes :: n.wallet
  }

  /** Each of these wallets was told once, and told exactly its transactions. */
  ghost predicate NotifiedExactly(notes: seq<Notification>, txs: seq<Transaction>, wallets: set<string>) {
    && NotifiedWallets(notes) == wallets
    && (forall i, j :: 0 <= i < j < |notes| ==> notes[i].wallet != notes[j].wallet)
    && (forall i :: 0 <= i < |notes| ==> multiset(notes[i].txs) == multiset(Latest(txs, notes[i].wallet)))
  }

  lemma NotifiedOneMore(notes: seq<Notification>, txs: seq<Transaction>, wallets: set<string>, n: Notification)
    requires NotifiedExactly(notes, txs, wallets) && n.wallet !in wallets
    requires multiset(n.txs) == multiset(Latest(txs, n.wallet))
    ensures NotifiedExactly(notes + [n], txs, wallets + {n.wallet})
  {
    hide Latest;
    assert NotifiedWallets(notes + [n]) == NotifiedWallets(notes) + {n.wallet};
    forall i | 0 <= i < |notes| ensures notes[i].wallet != n.wallet {
      assert notes[i].wallet in NotifiedWallets(notes);
    }
  }

  lemma NobodyNotified(txs: seq<Transaction>)
    ensures NotifiedExactly([], txs, {})
  {
  }

  lemma WhoWasNotified(notes: seq<Notification>, txs: seq<Transaction>, wallets: set<string>)
    requires NotifiedExactly(notes, txs, wallets)
    ensures NotifiedWallets(notes) == wallets
  {
  }

  lemma KeysAreWatched(m: map<string, seq<Transaction>>, txs: seq<Transaction>, watched: set<string>)
    requires Exact(m, txs, watched)
    ensures m.Keys == Wallets(txs) * watched
  {
  }

  lemma IsExactFor(m: map<string, seq<Transaction>>, txs: seq<Transaction>, watched: set<string>, wallet: string)
    requires Exact(m, txs, watched) && wallet in m
    ensures multiset(m[wallet]) == multiset(Latest(txs, wallet))
  {
  }

  /** The loop over the matches, in the order the map yields them; the first error ends it. */
  method NotifyAll(matches: map<string, seq<Transaction>>, notifier: TransactionNotifier,
      ghost txs: seq<Transaction>, ghost watched: set<string>)
    returns (err: Option<Error>, ghost notes: seq<Notification>)
    requires Exact(matches, txs, watched)
    modifies notifier
    ensures notifier.sent == old(notifier.sent) + notes
    ensures NotifiedExactly(notes, txs, NotifiedWallets(notes)) && NotifiedWallets(notes) <= Wallets(txs) * watched
    ensures err.None? ==> NotifiedWallets(notes) == Wallets(txs) * watched
    ensures Accepted(notifier.answers, old(notifier.calls), |notes|, err)
    ensures notifier.calls == old(notifier.calls) + |notes| + if err.Some? then 1 else 0
  {
    hide Latest, Wallets, NotifiedExactly, NotifiedWallets, Exact, Accepted;
    notes := [];
    NobodyNotified(txs);
    NothingAccepted(notifier.answers, notifier.calls);
    KeysAreWatched(matches, txs, watched);
    var rest := matches.Keys;
    ghost var told: set<string> := {};
    while rest != {}
      invariant told + rest == matches.Keys && told !! rest
      invariant notifier.sent == old(notifier.sent) + notes
      invariant NotifiedExactly(notes, txs, told)
      invariant Accepted(notifier.answers, old(notifier.calls), |notes|, None)
      invariant notifier.calls == old(notifier.calls) + |notes|
      decreases |rest|
    {
      var wallet :| wallet in rest;
      IsExactFor(matches, txs, watched, wallet);
      err := notifier.NotifyTransactions(wallet, matches[wallet]);
      OneMoreAnswer(notifier.answers, old(notifier.calls), |notes|, err);
      if err.Some? {
        WhoWasNotified(notes, txs, told);
        return;
      }
      NotifiedOneMore(notes, txs, told, Notification(wallet, matches[wallet]));
      notes := notes + [Notification(wallet, matches[wallet])];
      told, rest := told + {wallet}, rest - {wallet};
    }
    WhoWasNotified(notes, txs, told);
    err := None;
  }

  /** Match and notify; the first error of the storage or the sink ends it. */
  method NotifyWatchedWalletTransactions(txs: seq<Transaction>, walletStorage: WalletStorage,
      notifier: TransactionNotifier)
    returns (err: Option<Error>, ghost notes: seq<Notification>)
    modifies notifier
    ensures notifier.sent == old(notifier.sent) + notes
    ensures NotifiedExactly(notes, txs, NotifiedWallets(notes))
    ensures NotifiedWallets(notes) <= Wallets(txs) * walletStorage.watched
    ensures err.None? ==> NotifiedWallets(notes) == Wallets(txs) * walletStorage.watched
    ensures walletStorage.failure.Some? ==> err == walletStorage.failure && notes == []
    ensures walletStorage.failure.None? ==> Accepted(notifier.answers, old(notifier.calls), |notes|, err)
  {
    hide Latest, Wallets, Exact;
    var matches := GetTransactionsByWallet(txs, walletStorage);
    if matches.Failure? {
      return Some(matches.error), [];
    }
    err, notes := NotifyAll(matches.value, notifier, txs, walletStorage.watched);
  }

  datatype Processed = Completed | NotClaimed(answer: Spec.Answer) | Failed(error: Error)

  /** How the reply of a mark arrives; one whose reply is lost may have taken effect. */
  datatype MarkReply = MarkDelivered | MarkFails(applied: bool)

  predicate TakesEffect(mark: MarkReply) {
    mark.MarkFails? ==> mark.applied
  }

  /** Claim, notify, mark, with Redis. `others` are the other clients' commands between GET
      and SETNX, `meanwhile` those before the mark; a failing mark is logged. The guard's
      entry turns done by this call only after every watched wallet of the block has been
      told exactly its transactions, and then it does unless the mark is lost. */
  method NotifyWatchedTransactions(network: string, blockHash: string, txs: seq<Transaction>, ttl: nat,
      guard: R.RedisClient, walletStorage: WalletStorage, notifier: TransactionNotifier,
      others: seq<R.Command>, net: R.Network, meanwhile: seq<R.Command>, mark: MarkReply)
    returns (r: Processed, ghost notes: seq<Notification>)
    modifies guard, notifier
    ensures notifier.sent == old(notifier.sent) + notes
    ensures var key := R.IdempotencyKey(network, blockHash);
            var answer := R.ClaimAnswer(old(guard.View()), key, others, net);
            var store := R.AfterClaim(old(guard.View()), key, ttl, others, net);
            && (answer != Spec.Granted <==> r.NotClaimed?)
            && (r.NotClaimed? ==> r.answer == answer && notes == [] && guard.View() == store)
            && (r.Failed? ==> guard.View() == R.ApplyAll(store, meanwhile))
            && (r.Completed? && !TakesEffect(mark) ==> guard.View() == R.ApplyAll(store, meanwhile))
            && (r.Completed? && TakesEffect(mark) ==>
                  guard.View() == R.Apply(R.ApplyAll(store, meanwhile), R.SetDone(key))
                  && R.KindIn(guard.View(), key).IsDone?)
    ensures NotifiedExactly(notes, txs, NotifiedWallets(notes))
    ensures NotifiedWallets(notes) <= Wallets(txs) * walletStorage.watched
    ensures r.Completed? ==> NotifiedWallets(notes) == Wallets(txs) * walletStorage.watched
    ensures FailsOnlyWhenTold(r, walletStorage.failure, notifier.answers, old(notifier.calls), |notes|)
  {
    hide Latest, Wallets, Exact;
    notes := [];
    var claim := guard.ClaimBlockForTxWatch(network, blockHash, ttl, others, net);
    if claim != Spec.Granted {
      return NotClaimed(claim), notes;
    }
    var err;
    err, notes := NotifyWatchedWalletTransactions(txs, walletStorage, notifier);
    guard.Interference(meanwhile);
    if err.Some? {
      return Failed(err.value), notes;
    }
    if mark != MarkFails(false) {
      guard.MarkBlockTxWatchComplete(network, blockHash);
    }
    r := Completed;
  }

  /** A claimed block fails with the storage's error, or with the first error of the sink,
      and completes if there is none. */
  ghost predicate FailsOnlyWhenTold(r: Processed, failure: Option<Error>, answers: nat -> Option<Error>, from: nat,
      accepted: nat)
  {
    match r
    case NotClaimed(_) => true
    case Failed(e) => failure == Some(e) || (failure.None? && Accepted(answers, from, accepted, Some(e)))
    case Completed => failure.None? && Accepted(answers, from, accepted, None)
  }

  /** The same with PostgreSQL. */
  method NotifyWatchedTransactionsOnPostgres(network: string, blockHash: string, txs: seq<Transaction>, ttl: int,
      guard: P.PostgresClient, walletStorage: WalletStorage, notifier: TransactionNotifier,
      before: seq<P.Command>, between: seq<P.Command>, net: P.Network, meanwhile: seq<P.Command>, mark: MarkReply)
    returns (r: Processed, ghost notes: seq<Notification>)
    modifies guard, notifier
    ensures notifier.sent == old(notifier.sent) + notes
    ensures var key := (ToUpper(network), blockHash);
            var answer := P.ClaimAnswer(old(guard.View()), key, before, between, net);
            var table := P.AfterClaim(old(guard.View()), key, ttl, before, between, net);
            && (answer != Spec.Granted <==> r.NotClaimed?)
            && (r.NotClaimed? ==> r.answer == answer && notes == [] && guard.View() == table)
            && (r.Failed? ==> guard.View() == P.ApplyAll(table, meanwhile))
            && (r.Completed? && !TakesEffect(mark) ==> guard.View() == P.ApplyAll(table, meanwhile))
            && (r.Completed? && TakesEffect(mark) ==>
                  guard.View() == P.Apply(P.ApplyAll(table, meanwhile), P.MarkClaimAsCompleted(key))
                  && P.KindIn(guard.View(), key).IsDone?)
    ensures NotifiedExactly(notes, txs, NotifiedWallets(notes))
    ensures NotifiedWallets(notes) <= Wallets(txs) * walletStorage.watched
    ensures r.Completed? ==> NotifiedWallets(notes) == Wallets(txs) * walletStorage.watched
    ensures FailsOnlyWhenTold(r, walletStorage.failure, notifier.answers, old(notifier.calls), |notes|)
  {
    hide Latest, Wallets, Exact, NotifiedExactly, NotifiedWallets, ToUpper;
    notes := [];
    NobodyNotified(txs);
    WhoWasNotified(notes, txs, {});
    var key := (ToUpper(network), blockHash);
    var claim := guard.ClaimBlockForTxWatch(network, blockHash, ttl, before, between, net);
    if claim != Spec.Granted {
      return NotClaimed(claim), notes;
    }
    ghost var claimed := guard.View();
    var err;
    err, notes := NotifyWatchedWalletTransactions(txs, walletStorage, notifier);
    guard.Interference(meanwhile);
    if err.Some? {
      return Failed(err.value), notes;
    }
    P.RowsStay(claimed, meanwhile, key);
    if mark != MarkFails(false) {
      guard.MarkBlockTxWatchComplete(network, blockHash);
    }
    r := Completed;
  }
}
