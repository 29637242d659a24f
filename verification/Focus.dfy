/** A way to keep a large definition out of proofs that do not need it: a fact stated
    for all `k` with `Look(topic, k)` is used only where a proof looks at the topic. */
module Focus {

  datatype Topic =
    | ArchiveName   // what makes a file name the name of an archive time
    | Telling       // what makes a sequence of views a history
    | Promising     // what a run has promised
    | Queueing      // what a slot yields
    | Containing    // what slots, blocks and pool hold together
    | Packing       // what makes a record ready to be stored
    | Gaining       // what storing it does to the pool
    | Returning     // what returning its block does to the pool
    | Tracking      // what the words of the pool keep
    | Counting      // what a stored counter stands for
    | Indexing      // what the index of a position is

  /** Always true. */
  predicate Look(topic: Topic, k: nat) {
    true
  }
}
