/** What the outcomes of the store's operations have in common. */
module Outcomes {
  import opened Base
  import opened Effects
  import opened Tables

  /** Consistent tables whose rows all decode. */
  ghost predicate Healthy(t: Tables) {
    Consistent(t) && Readable(t) && 0 < t.nextPosition
  }

  lemma EmptyHealthy()
    ensures Healthy(EMPTY_DATABASE)
  {
  }

  /** What a transaction leaves that does not commit. */
  lemma QuietHealthy(t: Tables, u: Tables)
    requires Healthy(t) && Quiet(t, u)
    ensures Healthy(u)
  {
    DrawingKeepsConsistent(t, u.nextPosition);
  }

  /** Everything outside conversation `c` is as it was; positions may have been drawn. */
  ghost predicate Elsewhere(t: Tables, u: Tables, c: UUID) {
    t.nextPosition <= u.nextPosition && OthersKept(t.(nextPosition := u.nextPosition), u, c)
  }

  /** The conversation's row has the exact count, the next version and the time of the operation, and is returned. */
  ghost predicate Counts(t: Tables, u: Tables, c: UUID, now: Time, metadata: Metadata) {
    && c in u.conversations
    && u.conversations[c] == ConversationRow(|Order(u, c)|, Version(t, c) + 1, now)
    && metadata == Metadata(c, |Order(u, c)|, now, Version(t, c) + 1)
  }

  function MetadataOf(c: UUID, row: ConversationRow): Metadata {
    Metadata(c, row.messageCount, row.updatedAt, row.version)
  }
}
