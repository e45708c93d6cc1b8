/** When a posting goes through, in plain words: amounts that make sense, and every asset it moves on one cluster. */
module PostingRules {
  import opened MatchingTypes
  import opened Ledger
  import opened LedgerHistory

  // ------------------------------------------------------------------ asset keys

  /** A key is qualified by a cluster: the cluster's name, a colon, and something after it. */
  ghost predicate Qualifies(key: string, cluster: string) {
    cluster in CLUSTERS && exists rest :: rest != "" && key == cluster + ":" + rest
  }

  lemma NoColon(cluster: string)
    requires cluster in CLUSTERS
    ensures forall j :: 0 <= j < |cluster| ==> cluster[j] != ':'
  {
    if cluster == CLUSTERS[0] {
    } else if cluster == CLUSTERS[1] {
    } else if cluster == CLUSTERS[2] {
    } else {
      assert cluster == CLUSTERS[3];
    }
  }

  lemma {:induction false} ClusterExactly(key: string, cluster: string)
    ensures ClusterOf(key) == Some(cluster) <==> Qualifies(key, cluster)
  {
    if ClusterOf(key) == Some(cluster) {
      var i := IndexOf(key, ':').value;
      assert key == key[..i] + ":" + key[i + 1..];
    }
    if Qualifies(key, cluster) {
      var rest :| rest != "" && key == cluster + ":" + rest;
      NoColon(cluster);
      assert forall j :: 0 <= j < |cluster| ==> key[j] == cluster[j];
      IndexOfFirst(key, ':', |cluster|);
      assert key[..|cluster|] == cluster && key[|cluster| + 1..] == rest;
    }
  }

  // ------------------------------------------------------------------ amounts

  /** What each posting demands of its own amounts. */
  predicate MakesSense(p: Posting) {
    && p.amount > 0
    && match p
       case Deposit(_, _, _, amount, rent) => 0 <= Or(rent, 0) <= amount
       case WithdrawalSettlement(_, _, _, _, fee, _) => Or(fee, 0) >= 0
       case Allocation(_, _, _, _, fee, native) => Or(fee, 0) == 0 || (Or(fee, 0) > 0 && native.Some?)
       case Deallocation(_, _, _, _, fee, native) => Or(fee, 0) == 0 || (Or(fee, 0) > 0 && native.Some?)
       case TradeSettlement(_, _, _, base, quote, _, notional, buyerFee, sellerFee) =>
         base != quote && buyerFee >= 0 && 0 <= sellerFee <= notional
       case _ => true
  }

  lemma SenseExactly(p: Posting)
    ensures Refusal(p).None? <==> MakesSense(p)
  {
  }

  /** The assets a posting moves something of: its own; a trade's quote, unless it is worth nothing; and the one its
      network fee is paid in, if there is a fee. */
  predicate Moves(p: Posting, asset: string) {
    || p.asset == asset
    || match p
       case WithdrawalSettlement(_, _, _, _, fee, native) => native == asset && Or(fee, 0) > 0
       case Allocation(_, _, _, _, fee, native) => native == Some(asset) && Or(fee, 0) > 0
       case Deallocation(_, _, _, _, fee, native) => native == Some(asset) && Or(fee, 0) > 0
       case TradeSettlement(_, _, _, _, quote, _, notional, buyerFee, _) => quote == asset && notional + buyerFee > 0
       case _ => false
  }

  lemma LegsMove(p: Posting, e: Entry)
    requires Refusal(p).None? && e in Proposed(p) && e.amount != 0
    ensures Moves(p, e.asset)
  {
    var legs := Proposed(p);
    var i :| 0 <= i < |legs| && legs[i] == e;
  }

  lemma MovedHasLeg(p: Posting, asset: string)
    requires Refusal(p).None? && Moves(p, asset)
    ensures exists e :: e in Proposed(p) && e.amount != 0 && e.asset == asset
  {
    var legs := Proposed(p);
    if p.TradeSettlement? {
      assert legs[0] in legs && legs[3] in legs;
    } else if p.asset == asset {
      assert legs[0] in legs;
    } else if p.WithdrawalSettlement? {
      assert legs[2] in legs;
    } else {
      assert legs[4] in legs;
    }
  }

  /** A posting is committed if and only if its amounts make sense and one cluster qualifies every asset it moves:
      nothing is refused for any other reason, and nothing else gets through. */
  lemma {:induction false} CommitsExactly(p: Posting)
    ensures Commits(p)
       <==> && MakesSense(p)
            && exists cluster :: cluster in CLUSTERS && forall asset :: Moves(p, asset) ==> Qualifies(asset, cluster)
  {
    SenseExactly(p);
    hide Refusal, MakesSense;
    if Refusal(p).None? {
      NonZeroMembers(Proposed(p));
      forall cluster | cluster in CLUSTERS
        ensures (forall e :: e in Legs(p) ==> ClusterOf(e.asset) == Some(cluster))
           <==> forall asset :: Moves(p, asset) ==> Qualifies(asset, cluster)
      {
        SameClusters(p, cluster);
      }
      hide Legs, Moves, ClusterOf, Qualifies, Proposed;
    }
  }

  lemma SameClusters(p: Posting, cluster: string)
    requires Refusal(p).None? && cluster in CLUSTERS
    ensures (forall e :: e in Legs(p) ==> ClusterOf(e.asset) == Some(cluster))
       <==> forall asset :: Moves(p, asset) ==> Qualifies(asset, cluster)
  {
    NonZeroMembers(Proposed(p));
    hide Refusal, Proposed, Moves, ClusterOf, Qualifies, NonZero;
    if forall e :: e in Legs(p) ==> ClusterOf(e.asset) == Some(cluster) {
      forall asset | Moves(p, asset) ensures Qualifies(asset, cluster) {
        MovedHasLeg(p, asset);
        var e :| e in Proposed(p) && e.amount != 0 && e.asset == asset;
        assert e in Legs(p);
        ClusterExactly(asset, cluster);
      }
    }
    if forall asset :: Moves(p, asset) ==> Qualifies(asset, cluster) {
      forall e | e in Legs(p) ensures ClusterOf(e.asset) == Some(cluster) {
        LegsMove(p, e);
        ClusterExactly(e.asset, cluster);
      }
    }
  }
}
