// Strategy genomes: a side, a horizon, a conjunction of predicates and a risk geometry.
module Genomes {
  import opened Prelude
  import opened Market
  import opened Risk

  datatype CmpOp = Gt | Lt | Gte | Lte {
    predicate Apply(value: real, threshold: real) {
      match this
      case Gt => value > threshold
      case Lt => value < threshold
      case Gte => value >= threshold
      case Lte => value <= threshold
    }

    function Flip(): CmpOp {
      match this
      case Gt => Lt
      case Lt => Gt
      case Gte => Lte
      case Lte => Gte
    }
  }

  datatype Predicate = Predicate(layer: Layer, key: string, op: CmpOp, threshold: real) {
    // An absent feature does not hold.
    predicate HoldsOn(features: Features) {
      key in features && op.Apply(features[key], threshold)
    }
  }

  datatype Genome = Genome(side: Side, horizon: Horizon, predicates: seq<Predicate>, risk: RiskModel) {
    predicate Fires(features: Features) {
      predicates != [] && forall p :: p in predicates ==> p.HoldsOn(features)
    }
  }

  // A genome on its horizon's own geometry.
  function NewGenome(side: Side, horizon: Horizon, predicates: seq<Predicate>): Genome {
    Genome(side, horizon, predicates, FromProfile(ProfileFor(horizon)))
  }
}
