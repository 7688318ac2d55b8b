/** The state root: every account's RLP over its storage root, all of it as the Yellow Paper
    defines it for a world of accounts and slots.  The trie that shows a world has that root,
    and so has the frontier after a block.
 */
module StateRoot {
  import opened Trie
  import opened TrieLaws
  import opened TrieHistory
  import opened TrieRoot
  import opened Frontier
  import opened FrontierFlatten
  import opened FrontierInvariants
  import opened FrontierRuns
  import opened FrontierBlock
  import opened BlockRecord
  import opened BlockTrie
  import Y = YellowPaper
  import B = BlockOps

  ghost predicate SlotKeysOk(a: B.Acct) {
    Y.PairsOk(a.slots, 0, KEY_NIBBLES)
  }

  ghost predicate WorldOk(w: B.World) {
    forall k :: k in w ==> |k| == KEY_NIBBLES && SlotKeysOk(w[k])
  }

  /** The leaf of an account: nonce, balance, storage root, code hash. */
  ghost function AccountLeaf(cr: Crypto, a: B.Acct): Bytes
    requires SlotKeysOk(a)
  {
    cr.accountRlp(a.nonce, a.balance, Y.TrieHash(cr, a.slots, KEY_NIBBLES), a.codeHash)
  }

  ghost function StatePairs(cr: Crypto, w: B.World): Y.Pairs
    requires WorldOk(w)
  {
    map k | k in w :: AccountLeaf(cr, w[k])
  }

  lemma StatePairsOk(cr: Crypto, w: B.World)
    requires WorldOk(w)
    ensures Y.PairsOk(StatePairs(cr, w), 0, KEY_NIBBLES)
  {
    hide AccountLeaf, SlotKeysOk;
  }

  lemma StorageIsYellowPaper(cr: Crypto, n: Node)
    requires Canonical(n, KEY_NIBBLES) && ValuesOnly(n)
    ensures Y.PairsOk(SlotsOf(n), 0, KEY_NIBBLES) && Root(cr, n) == Y.TrieHash(cr, SlotsOf(n), KEY_NIBBLES)
  {
    hide Canonical, Root, Y.TrieHash, SlotsOf, Get;
    SlotsAreLookups(n, KEY_NIBBLES);
    var J := SlotsOf(n);
    forall k: Path
      ensures k in J <==> |k| == KEY_NIBBLES && [] <= k && Get(n, k[0..]).Some?
      ensures k in J ==> J[k] == LeafBytes(cr, Get(n, k[0..]).value) {
      assert k[0..] == k;
      if k in J {
        assert B.Slot(J, k) == B.T.Some(J[k]);
        assert Keeps(n, KEY_NIBBLES, B.Entry(k, J[k]));
      }
      if |k| == KEY_NIBBLES && Get(n, k).Some? {
        assert Get(n, k).value.Value?;
        assert Keeps(n, KEY_NIBBLES, B.Entry(k, Get(n, k).value.bytes));
        assert B.Slot(J, k) == B.T.Some(Get(n, k).value.bytes);
      }
    }
    Y.RootIsYellowPaper(cr, n, KEY_NIBBLES, J);
  }

  lemma AccountLeafIs(cr: Crypto, o: Option<Item>)
    requires Structured(o) && o.Some?
    ensures AcctOf(o).Some? && SlotKeysOk(AcctOf(o).value) && LeafBytes(cr, o.value) == AccountLeaf(cr, AcctOf(o).value)
  {
    hide Canonical, ValuesOnly, SlotsOf, NodeRef, Y.TrieHash, Y.PairsOk;
    StorageIsYellowPaper(cr, o.value.storage);
  }

  /** The trie that shows a world has the world's state root. */
  lemma ShownRoot(cr: Crypto, n: Node, w: B.World)
    requires Shows(n, w)
    ensures WorldOk(w) && Y.PairsOk(StatePairs(cr, w), 0, KEY_NIBBLES) && Root(cr, n) == Y.TrieHash(cr, StatePairs(cr, w), KEY_NIBBLES)
  {
    hide Canonical, Structured, AcctOf, Get, Root, Y.TrieHash, Y.PairsOk, SlotKeysOk, AccountLeaf, LeafBytes;
    forall k: Path | |k| == KEY_NIBBLES
      ensures k in w <==> Get(n, k).Some?
      ensures k in w ==> SlotKeysOk(w[k]) && LeafBytes(cr, Get(n, k).value) == AccountLeaf(cr, w[k]) {
      assert AcctOf(Get(n, k)) == B.At(w, k);
      HeldIsThere(Get(n, k));
      if Get(n, k).Some? {
        AccountLeafIs(cr, Get(n, k));
      }
    }
    StatePairsOk(cr, w);
    var J := StatePairs(cr, w);
    forall k: Path ensures [] <= k && k[0..] == k {
    }
    assert forall k: Path :: k in J <==> |k| == KEY_NIBBLES && [] <= k && Get(n, k[0..]).Some?;
    Y.RootIsYellowPaper(cr, n, KEY_NIBBLES, J);
  }

  /** The hash the engine answers after a block, memos and layout and all, is the state root
      of the world the block leaves, when no frontier child is short enough to be inlined. */
  lemma BlockRoot(cr: Crypto, pol: Policy, f: RamNode, us: seq<Update>, ops: seq<B.KeyedOp>, w: B.World)
    requires FrontierOk(cr, f) && BlockOk(ops) && Normalised(us, ops) && Shows(Flatten(f), w)
    ensures UpdatesOk(us)
    ensures var r, w' := Applied(cr, pol, f, us), B.ApplyBlock(w, ops);
      r.Ok? && r.value != REmpty && AllHashed(cr, r.value) ==>
        && WorldOk(w') && Y.PairsOk(StatePairs(cr, w'), 0, KEY_NIBBLES)
        && Answer(cr, Hashed(cr, r.value)) == Y.TrieHash(cr, StatePairs(cr, w'), KEY_NIBBLES)
  {
    hide FrontierOk, Flatten, Shows, B.ApplyBlock, BlockOk, Normalised, UpdatesOk, Applied, AllHashed, Hashed, Answer, Y.TrieHash, Y.PairsOk, WorldOk, StatePairs, Root,
      RamHash;
    AppliedIsBlock(cr, pol, f, us, ops, w);
    var r := Applied(cr, pol, f, us);
    if r.Ok? && r.value != REmpty && AllHashed(cr, r.value) {
      LiveRoot(cr, r.value);
      ShownRoot(cr, Flatten(r.value), B.ApplyBlock(w, ops));
    }
  }

  lemma LiveRoot(cr: Crypto, f: RamNode)
    requires FrontierOk(cr, f) && AllHashed(cr, f)
    ensures Answer(cr, Hashed(cr, f)) == Root(cr, Flatten(f))
  {
    hide Flatten, AllHashed, Hashed, Answer, Root, RamHash, RamOk, MemoOk, PrefixOk, AccountsPlain;
    HashedKeepsAll(cr, f, KEY_NIBBLES, []);
    HashIsFlatRoot(cr, f, KEY_NIBBLES);
  }
}
