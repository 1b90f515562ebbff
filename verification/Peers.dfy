/** Two nodes: one downloads from the other while the other goes on. */
module Peers {
  import opened Database
  import opened Chain
  import opened Hashing
  import opened Download
  import opened Ledger
  import opened Safety

  lemma StepKeepsBlocks(crypto: Crypto, l: Ledger, e: Event)
    ensures Keeps(l.chain, Step(crypto, l, e).chain)
  {
    StepChain(crypto, l, e);
    if e.Downloaded? { PutAllGrows(l.chain, e.blocks); }
  }

  /** A node never drops or changes a block it has stored, in any run, linked or not. */
  lemma {:induction false} RunKeepsBlocks(crypto: Crypto, l: Ledger, events: seq<Event>)
    ensures Keeps(l.chain, Run(crypto, l, events).chain)
  {
    if |events| > 0 {
      var n := |events| - 1;
      RunKeepsBlocks(crypto, l, events[..n]);
      StepKeepsBlocks(crypto, Run(crypto, l, events[..n]), events[n]);
    }
  }

  /** So a responder serves what it announced for the rest of its run. */
  lemma RunServes(crypto: Crypto, r: Ledger, events: seq<Event>)
    requires IsChain(Genesis(crypto), r.chain)
    ensures Serves(Run(crypto, r, events).chain, ChainOf(crypto, r))
  {
    RunKeepsBlocks(crypto, r, events);
    MapOfMembers(ChainOf(crypto, r));
  }

  /** The responder's events from the header request to each block request, and its store by then. */
  type Progress = nat -> seq<Event>

  function ViewOf(crypto: Crypto, r: Ledger, progress: Progress): View {
    (i: nat) => Run(crypto, r, progress(i)).chain
  }

  lemma ServesWhileRunning(crypto: Crypto, r: Ledger, progress: Progress)
    requires IsChain(Genesis(crypto), r.chain)
    ensures ServesThroughout(ViewOf(crypto, r, progress), ChainOf(crypto, r))
  {
    forall i: nat ensures Serves(ViewOf(crypto, r, progress)(i), ChainOf(crypto, r)) {
      RunServes(crypto, r, progress(i));
    }
  }

  ghost function FromPeer(crypto: Crypto, l: Ledger, r: Ledger, progress: Progress): Event
    requires IsChain(Genesis(crypto), r.chain)
  {
    Downloaded(Downloads(l.chain, ChainOf(crypto, r), ViewOf(crypto, r, progress)))
  }

  /**
   * A node whose chain is a prefix of the responder's downloads from it, whatever the responder does
   * between the requests: it ends with the responder's store at header-request time, and with a prefix
   * of what the responder has after any linked run.
   */
  lemma PeersConverge(crypto: Crypto, l: Ledger, r: Ledger, progress: Progress, later: seq<Event>)
    requires crypto.Valid() && IsChain(Genesis(crypto), l.chain) && IsChain(Genesis(crypto), r.chain)
    requires ChainOf(crypto, l) <= ChainOf(crypto, r)
    ensures var l' := Step(crypto, l, FromPeer(crypto, l, r, progress));
            && LinksUp(l, FromPeer(crypto, l, r, progress))
            && l'.chain == r.chain
            && (LinkedRun(crypto, r, later) ==>
                  && IsChain(Genesis(crypto), Run(crypto, r, later).chain)
                  && ChainOf(crypto, l') <= ChainOf(crypto, Run(crypto, r, later)))
  {
    ServesWhileRunning(crypto, r, progress);
    PrefixPeerConverges(crypto, l, ChainOf(crypto, r), ViewOf(crypto, r, progress));
    if LinkedRun(crypto, r, later) { RunKeepsChain(crypto, r, later); }
  }

  /** From any other responder the local store still holds a chain exactly when its first later block links up. */
  lemma PeersLinkUpIff(crypto: Crypto, l: Ledger, r: Ledger, progress: Progress, k: nat)
    requires crypto.Valid() && IsChain(Genesis(crypto), l.chain) && IsChain(Genesis(crypto), r.chain)
    requires HashDetermines(ChainOf(crypto, l), ChainOf(crypto, r)) && FirstLater(l.chain, ChainOf(crypto, r), k)
    ensures IsChain(Genesis(crypto), Step(crypto, l, FromPeer(crypto, l, r, progress)).chain)
            <==> Continues(ChainOf(crypto, l), ChainOf(crypto, r), k)
  {
    ServesWhileRunning(crypto, r, progress);
    PeerLinksUpIff(crypto, l, ChainOf(crypto, r), ViewOf(crypto, r, progress), k);
  }
}
