/** When records are split: the size policy decides, a record that is to be split is split
    exactly when it has a branch to lift, and the parts are split in turn until each fits or
    has nothing left to lift.
 */
module Promotion {
  import opened Trie
  import opened TrieRoot
  import opened Frontier
  import opened BlockRecord
  import opened FrontierNet
  import B = BlockOps

  /** The record's own top branch, or that of its account's storage, can move to RAM. */
  predicate Splits(n: Node) {
    HasTopBranch(n) || Liftable(n)
  }

  /** The record is kept whole, on disk or in RAM as the policy places it. */
  ghost predicate KeptWhole(cr: Crypto, pol: Policy, rec: Rec, s: Slot) {
    s == match pol.place(rec) case Some(ptr) => Disk(ptr, Root(cr, rec.node), rec) case None => Mem(Root(cr, rec.node), rec)
  }

  /** No record in the frontier is oversized and could still be split. */
  ghost predicate Fits(pol: Policy, f: RamNode)
    decreases f
  {
    (f.RExt? ==> Fits(pol, f.child)) && (f.RBranch? ==> forall i :: 0 <= i < |f.slots| ==> SlotFits(pol, f.slots[i]))
  }

  ghost predicate SlotFits(pol: Policy, s: Slot)
    decreases s
  {
    && (s.Ram? ==> Fits(pol, s.node))
    && (s.Promoted? ==> Fits(pol, s.storage))
    && (s.Disk? || s.Mem? ==> !(pol.oversized(s.rec) && Splits(s.rec.node)))
  }

  /** A record is split if and only if it is to be and can be; an account keeps its fields
      and lifts its storage; every part of a split fits. */
  lemma {:induction false} SettleIsExact(cr: Crypto, pol: Policy, split: Rec -> bool, rec: Rec)
    ensures var s := Settle(cr, pol, split, rec);
      if split(rec) && Splits(rec.node) then
        && (HasTopBranch(rec.node) ==> s.Ram? && Fits(pol, s.node))
        && (!HasTopBranch(rec.node) ==>
          && s.Promoted? && s.path == rec.node.path && Fits(pol, s.storage)
          && s.nonce == rec.node.item.nonce && s.balance == rec.node.item.balance && s.codeHash == rec.node.item.codeHash)
      else KeptWhole(cr, pol, rec, s)
    decreases rec.node, 3
  {
    if split(rec) && HasTopBranch(rec.node) {
      PromotedFits(cr, pol, rec);
    } else if split(rec) && Liftable(rec.node) {
      PromotedFits(cr, pol, Rec(rec.prefix + rec.node.path, rec.node.item.storage));
    }
  }

  lemma {:induction false} PromotedFits(cr: Crypto, pol: Policy, rec: Rec)
    requires HasTopBranch(rec.node)
    ensures Fits(pol, Promote(cr, pol, rec))
    decreases rec.node, 2
  {
    var path := if rec.node.Extension? then rec.node.path else [];
    var branch := if rec.node.Extension? then rec.node.child else rec.node;
    ChildrenFit(cr, pol, rec.prefix + path, branch, 0);
    var slots := PromoteChildren(cr, pol, rec.prefix + path, branch, 0);
    hide PromoteChildren;
    assert Fits(pol, RBranch(slots, None));
  }

  lemma {:induction false} ChildrenFit(cr: Crypto, pol: Policy, prefix: Path, branch: Node, i: nat)
    requires branch.Branch?
    ensures forall k :: 0 <= k < |PromoteChildren(cr, pol, prefix, branch, i)| ==> SlotFits(pol, PromoteChildren(cr, pol, prefix, branch, i)[k])
    decreases branch, 1, 16 - i
  {
    if i < 16 && i < |branch.children| {
      hide Settle, SlotFits;
      if branch.children[i] != Empty {
        ChildFits(cr, pol, Rec(prefix + [i], branch.children[i]));
      }
      FreeFits(pol);
      ChildrenFit(cr, pol, prefix, branch, i + 1);
    }
  }

  lemma FreeFits(pol: Policy)
    ensures SlotFits(pol, Free)
  {
  }

  lemma {:induction false} ChildFits(cr: Crypto, pol: Policy, rec: Rec)
    ensures SlotFits(pol, Settle(cr, pol, pol.oversized, rec))
    decreases rec.node, 4
  {
    hide Settle, Fits, Root, HasTopBranch, Liftable;
    SettleIsExact(cr, pol, pol.oversized, rec);
  }

  // --------------------------------------------------------------- after an edit

  /** The edited record was split exactly when the policy asks for it and it can be. */
  ghost predicate SplitByPolicy(cr: Crypto, pol: Policy, rec: Rec, s: Slot) {
    if pol.promote(rec) && Splits(rec.node) then s.Ram? || s.Promoted? else KeptWhole(cr, pol, rec, s)
  }

  lemma SettledByPolicy(cr: Crypto, pol: Policy, rec: Rec)
    ensures SplitByPolicy(cr, pol, rec, Settle(cr, pol, pol.promote, rec))
  {
    hide Settle, Fits;
    SettleIsExact(cr, pol, pol.promote, rec);
  }

  /** Inserts into a record and net updates of a record end in a record split by the
      policy. */
  lemma EditsSplit(cr: Crypto, pol: Policy, rec: Rec, key: Path, op: LeafOp, u: B.Net)
    requires OpOk(op) && NetOk(u)
    ensures Canonical(rec.node, |key|) && RecInsert(cr, pol, rec, key, op).Ok? ==>
      SplitByPolicy(cr, pol, Rec(rec.prefix, Insert(rec.node, key, op).value), RecInsert(cr, pol, rec, key, op).value)
    ensures RecordOk(rec.node, key) && RecordNet(cr, pol, rec, key, u).Ok? && RecordNet(cr, pol, rec, key, u).value.Changed? ==>
      SplitByPolicy(cr, pol, Rec(rec.prefix, NetNode(rec.node, key, u).now), RecordNet(cr, pol, rec, key, u).value.now)
  {
    hide Settle, SplitByPolicy, Insert, NetNode, Canonical, Structured;
    if Canonical(rec.node, |key|) && Insert(rec.node, key, op).Ok? {
      SettledByPolicy(cr, pol, Rec(rec.prefix, Insert(rec.node, key, op).value));
    }
    if RecordOk(rec.node, key) && NetNode(rec.node, key, u).Changed? {
      SettledByPolicy(cr, pol, Rec(rec.prefix, NetNode(rec.node, key, u).now));
    }
  }

  /** So do new records of net updates and demotions of promoted accounts. */
  lemma CreationsSplit(cr: Crypto, pol: Policy, prefix: Path, key: Path, u: B.Net, s: Slot, storage: Node)
    requires NetOk(u)
    ensures RecordOk(Empty, key) && NetNode(Empty, key, u).Changed? ==>
      SplitByPolicy(cr, pol, Rec(prefix, NetNode(Empty, key, u).now), Creation(cr, pol, prefix, key, u))
    ensures s.Promoted? ==>
      SplitByPolicy(cr, pol, Rec(prefix, Leaf(s.path, Account(s.nonce, s.balance, s.codeHash, storage))), Demote(cr, pol, s, prefix, storage))
  {
    hide Settle, SplitByPolicy, NetNode, Structured;
    if RecordOk(Empty, key) && NetNode(Empty, key, u).Changed? {
      SettledByPolicy(cr, pol, Rec(prefix, NetNode(Empty, key, u).now));
    }
    if s.Promoted? {
      SettledByPolicy(cr, pol, Rec(prefix, Leaf(s.path, Account(s.nonce, s.balance, s.codeHash, storage))));
    }
  }
}
