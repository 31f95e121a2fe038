// Sides, bars and the feature layers: the domain types every other part shares.
module Market {
  import opened Prelude

  datatype Side = Long | Short {
    function Sign(): real {
      if Long? then 1.0 else -1.0
    }

    function Opposite(): Side {
      if Long? then Short else Long
    }
  }

  datatype Bar = Bar(ts: int, open: real, high: real, low: real, close: real, volume: real) {
    // Wilder's true range against the previous close.
    function TrueRange(prevClose: real): real {
      MaxReal(MaxReal(high - low, Abs(high - prevClose)), Abs(low - prevClose))
    }

    // The quotes of one bar agree with each other.
    predicate Consistent() {
      low <= open <= high && low <= close <= high
    }
  }

  ghost predicate AllConsistent(bars: seq<Bar>) {
    forall i :: 0 <= i < |bars| ==> bars[i].Consistent()
  }

  ghost predicate Chronological(bars: seq<Bar>) {
    forall i, j :: 0 <= i < j < |bars| ==> bars[i].ts < bars[j].ts
  }

  datatype Layer = Tradeability | Regime | Location | Trigger | Event

  datatype Horizon = Swing | ShortSwing | Day | ZeroDte | Scalp

  // A feature map as known at one decision bar.
  type Features = map<string, real>
}
