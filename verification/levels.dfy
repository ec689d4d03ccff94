/** The five threat levels shared by the file and URL analyzers, their order,
    and the strings under which results are stored. */
module Levels {

  datatype Level = Safe | Low | Medium | High | Critical

  /** Position of a level in the order safe < low < medium < high < critical. */
  function Rank(l: Level): nat {
    match l
    case Safe => 0
    case Low => 1
    case Medium => 2
    case High => 3
    case Critical => 4
  }

  /** The stored spelling: `'safe'`, `'low'`, `'medium'`, `'high'`, `'critical'`. */
  function Name(l: Level): string {
    match l
    case Safe => "safe"
    case Low => "low"
    case Medium => "medium"
    case High => "high"
    case Critical => "critical"
  }

  /** Distinct levels are stored under distinct names, and the order is strict. */
  lemma NameInjective(a: Level, b: Level)
    ensures Name(a) == Name(b) <==> a == b
    ensures Rank(a) == Rank(b) <==> a == b
  {
    if a != b {
      assert Name(a)[0] != Name(b)[0] || |Name(a)| != |Name(b)|;
    }
  }
}
