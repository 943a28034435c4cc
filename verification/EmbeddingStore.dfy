/** Memories and their stored embeddings, and the compare-and-swap that publishes an embedding.

A stored payload remembers which content it was computed from, which is what lets the lemmas say
that a published vector belongs to the row's content. Content hashes are injective.
*/
module EmbeddingStore {
  import opened Common

  type Id = string
  type Content = string

  datatype Hash = HashOf(of: Content)

  // None is a provider that has no revision, not an unknown one.
  type Revision = Option<string>

  // The space a vector lives in, apart from the model revision.
  datatype Space = Space(provider: string, model: string, fingerprint: string)

  // A vector (`status = 'ok'`) or a tombstone (`status = 'content_too_long'`), computed from `of`.
  datatype Payload =
    | Vector(of: Content, numbers: seq<real>)
    | Tombstone(of: Content)

  datatype Row = Row(space: Space, revision: Revision, contentHash: Hash, payload: Payload)

  datatype Data = Data(memories: map<Id, Content>, rows: map<Id, Row>)

  // What the model listing last said. `known` false is "nothing has verified a revision yet", which is
  // not "no revision".
  datatype Snapshot = Snapshot(known: bool, value: Revision, verifiedAt: real)

  // While the revision is unverified it is left out of the space.
  predicate InSpace(row: Row, space: Space, snapshot: Snapshot) {
    row.space == space && (snapshot.known ==> row.revision == snapshot.value)
  }

  // The active space and the operation's one verified revision.
  datatype Target = Target(space: Space, revision: Revision)

  predicate Matches(row: Row, t: Target, content: Content) {
    row.space == t.space && row.revision == t.revision && row.contentHash == HashOf(content)
  }

  // ADR 0005 freshness: identity and content hash both match. Whether the row is a tombstone plays no part.
  predicate IsCurrent(d: Data, t: Target, id: Id, content: Content) {
    id in d.rows && Matches(d.rows[id], t, content)
  }

  // Foreign key: no embedding without its memory.
  predicate Linked(d: Data) {
    d.rows.Keys <= d.memories.Keys
  }

  // The row's vector (or tombstone) was computed from the content whose hash it carries.
  predicate Honest(d: Data) {
    forall id | id in d.rows :: d.rows[id].payload.of == d.rows[id].contentHash.of
  }

  predicate ContentCurrent(d: Data, id: Id) {
    id in d.rows && id in d.memories && d.rows[id].contentHash == HashOf(d.memories[id])
  }

  predicate ContentStale(d: Data, id: Id) {
    id in d.rows && !ContentCurrent(d, id)
  }

  predicate SwapAllowed(d: Data, id: Id, hash: Hash) {
    id in d.memories && HashOf(d.memories[id]) == hash
  }

  function Added(d: Data, id: Id, content: Content): Data {
    if id in d.memories then d else d.(memories := d.memories[id := content])
  }

  function Saved(d: Data, id: Id, row: Row): Data {
    if SwapAllowed(d, id, row.contentHash) then d.(rows := d.rows[id := row]) else d
  }

  function Updated(d: Data, id: Id, content: Content): Data {
    if id in d.memories then d.(memories := d.memories[id := content]) else d
  }

  // The embedding goes with its memory (ON DELETE CASCADE).
  function Deleted(d: Data, id: Id): Data {
    Data(d.memories - {id}, d.rows - {id})
  }

  function Invalidated(d: Data, id: Id): Data {
    d.(rows := d.rows - {id})
  }

  // The store object. Every method runs under its lock, so each is one atomic step.
  class SqliteStore {
    var memories: map<Id, Content>
    var rows: map<Id, Row>

    function Contents(): Data
      reads this
    {
      Data(memories, rows)
    }

    constructor ()
      ensures Contents() == Data(map[], map[])
    {
      memories, rows := map[], map[];
    }

    // False is the integrity error of a taken id.
    method AddMemory(id: Id, content: Content) returns (added: bool)
      modifies this
      ensures added <==> id !in old(memories)
      ensures Contents() == Added(old(Contents()), id, content)
      ensures memories == if added then old(memories)[id := content] else old(memories)
      ensures rows == old(rows)
    {
      added := id !in memories;
      if added {
        memories := memories[id := content];
      }
    }

    // Compare-and-swap: publish only if the memory still holds what the caller embedded.
    method SaveEmbedding(id: Id, row: Row) returns (published: bool)
      modifies this
      ensures published <==> id in old(memories) && HashOf(old(memories)[id]) == row.contentHash
      ensures Contents() == Saved(old(Contents()), id, row)
      ensures rows == if published then old(rows)[id := row] else old(rows)
      ensures memories == old(memories)
    {
      if id !in memories {
        return false;
      }
      if HashOf(memories[id]) != row.contentHash {
        return false;
      }
      rows := rows[id := row];
      return true;
    }

    // False is the source's NotFoundError.
    method UpdateMemory(id: Id, content: Content) returns (found: bool)
      modifies this
      ensures found <==> id in old(memories)
      ensures Contents() == Updated(old(Contents()), id, content)
      ensures memories == if found then old(memories)[id := content] else old(memories)
      ensures rows == old(rows)
    {
      found := id in memories;
      if found {
        memories := memories[id := content];
      }
    }

    method DeleteMemory(id: Id) returns (found: bool)
      requires Linked(Contents())
      modifies this
      ensures found <==> id in old(memories)
      ensures Contents() == Deleted(old(Contents()), id)
      ensures memories == old(memories) - {id} && rows == old(rows) - {id}
      ensures Linked(Contents())
    {
      found := id in memories;
      if found {
        memories, rows := memories - {id}, rows - {id};
      }
    }

    method DeleteEmbedding(id: Id)
      modifies this
      ensures Contents() == Invalidated(old(Contents()), id)
      ensures memories == old(memories) && rows == old(rows) - {id}
    {
      rows := rows - {id};
    }

    // The identity decides currency: against every target and every content, the row that is returned
    // matches exactly when the memory's stored embedding is current.
    method GetEmbeddingIdentity(id: Id) returns (row: Option<Row>)
      ensures forall t, content ::
                row.Some? && Matches(row.value, t, content) <==> IsCurrent(Contents(), t, id, content)
    {
      row := if id in rows then Some(rows[id]) else None;
    }
  }
}
