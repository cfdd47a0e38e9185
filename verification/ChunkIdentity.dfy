/** How ingestion names chunks and how a stored row is keyed.  A row's key is the
    UUID5 of `workspace:chunk_id`; UUID5 itself is taken to be injective, so what
    has to be shown is that the strings it hashes are. */
module ChunkIdentity {
  import opened Text

  const DEFAULT_PROFILE := "default"

  /** `_chunk_id`: the profile is spelled out only when it is not the default one. */
  function ChunkId(doc: string, profile: string, index: nat): string {
    if profile == DEFAULT_PROFILE then doc + ":" + Decimal(index)
    else doc + ":" + profile + ":" + Decimal(index)
  }

  function RowName(workspace: string, chunkId: string): string {
    workspace + ":" + chunkId
  }

  predicate ColonFree(s: string) {
    ':' !in s
  }

  lemma DecimalColonFree(n: nat)
    ensures ColonFree(Decimal(n))
  {
    DigitsLack(Decimal(n), ':');
  }

  /** What follows the document id in a chunk id. */
  function ChunkTail(profile: string, index: nat): string {
    if profile == DEFAULT_PROFILE then Decimal(index) else profile + [':'] + Decimal(index)
  }

  lemma ChunkIdHasTail(doc: string, profile: string, index: nat)
    ensures ChunkId(doc, profile, index) == doc + [':'] + ChunkTail(profile, index)
    ensures ColonFree(ChunkTail(profile, index)) <==> profile == DEFAULT_PROFILE
  {
    DecimalColonFree(index);
    if profile != DEFAULT_PROFILE {
      assert ChunkTail(profile, index)[|profile|] == ':';
      assert ChunkId(doc, profile, index) == doc + [':'] + ChunkTail(profile, index);
    }
  }

  lemma ChunkIdInjective(d1: string, p1: string, i1: nat, d2: string, p2: string, i2: nat)
    requires ColonFree(d1) && ColonFree(p1) && ColonFree(d2) && ColonFree(p2)
    requires ChunkId(d1, p1, i1) == ChunkId(d2, p2, i2)
    ensures d1 == d2 && p1 == p2 && i1 == i2
  {
    ChunkIdHasTail(d1, p1, i1);
    ChunkIdHasTail(d2, p2, i2);
    FirstFieldUnique(d1, ChunkTail(p1, i1), d2, ChunkTail(p2, i2), ':');
    if p1 != DEFAULT_PROFILE {
      FirstFieldUnique(p1, Decimal(i1), p2, Decimal(i2), ':');
    }
    DecimalInjective(i1, i2);
  }

  /** Two different chunks of any documents, profiles or workspaces never share a row
      of one table, as long as names contain no colon. */
  lemma RowNameInjective(w1: string, d1: string, p1: string, i1: nat,
                         w2: string, d2: string, p2: string, i2: nat)
    requires ColonFree(w1) && ColonFree(d1) && ColonFree(p1)
    requires ColonFree(w2) && ColonFree(d2) && ColonFree(p2)
    ensures RowName(w1, ChunkId(d1, p1, i1)) == RowName(w2, ChunkId(d2, p2, i2))
       <==> w1 == w2 && d1 == d2 && p1 == p2 && i1 == i2
  {
    if RowName(w1, ChunkId(d1, p1, i1)) == RowName(w2, ChunkId(d2, p2, i2)) {
      FirstFieldUnique(w1, ChunkId(d1, p1, i1), w2, ChunkId(d2, p2, i2), ':');
      ChunkIdInjective(d1, p1, i1, d2, p2, i2);
    }
  }

  /** The colon condition on workspaces is needed: a workspace that ends in a document
      id swallows it. */
  lemma ColonInWorkspaceCollides(w: string, d: string, e: string, i: nat)
    requires e != DEFAULT_PROFILE
    ensures RowName(w + ":" + d, ChunkId(e, DEFAULT_PROFILE, i)) == RowName(w, ChunkId(d, e, i))
  {
    assert RowName(w + ":" + d, ChunkId(e, DEFAULT_PROFILE, i)) == w + ":" + d + ":" + (e + ":" + Decimal(i));
  }
}
