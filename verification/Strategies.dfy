// The strategies table and the score log: rows keyed by strategy id.
module Strategies {
  import opened Prelude
  import opened Genomes
  import opened Score

  type Id = nat

  datatype Status = Candidate | Promoted | Quarantined | Demoted | Retired

  datatype Row = Row(genome: Genome, status: Status, generation: nat)

  type Rows = map<Id, Row>

  datatype ScoreEntry = ScoreEntry(id: Id, score: OosScore)

  // Updating the status of an id that has no row does nothing.
  function Restatused(rows: Rows, id: Id, status: Status): Rows {
    if id in rows then rows[id := rows[id].(status := status)] else rows
  }

  class Store {
    var rows: Rows
    var scores: seq<ScoreEntry>

    constructor (initial: Rows)
      ensures rows == initial && scores == []
    {
      rows, scores := initial, [];
    }

    // A conflicting id has its row overwritten, its status included.
    method UpsertStrategy(id: Id, row: Row)
      modifies this`rows
      ensures rows == old(rows)[id := row]
    {
      rows := rows[id := row];
    }

    method UpdateStatus(id: Id, status: Status)
      modifies this`rows
      ensures rows == Restatused(old(rows), id, status)
    {
      if id in rows {
        rows := rows[id := rows[id].(status := status)];
      }
    }

    method InsertScore(id: Id, score: OosScore)
      modifies this`scores
      ensures scores == old(scores) + [ScoreEntry(id, score)]
    {
      scores := scores + [ScoreEntry(id, score)];
    }
  }
}
