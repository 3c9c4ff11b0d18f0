/** The global statistics page: progress bars coloured by thresholds. */
module GlobalStaticsPage {

  datatype ProgressColor = Error | Warning | Success

  /** How good a colour is: error < warning < success. */
  function Rank(c: ProgressColor): nat {
    match c
    case Error => 0
    case Warning => 1
    case Success => 2
  }

  /** `getProgressColor`. */
  function ProgressColorOf(value: real): (r: ProgressColor)
    ensures r == Error <==> value < 30.0
    ensures r == Warning <==> 30.0 <= value < 70.0
    ensures r == Success <==> value >= 70.0
  {
    if value < 30.0 then Error
    else if value < 70.0 then Warning
    else Success
  }

  /** A higher progress never gets a worse colour. */
  lemma ProgressColorMonotone(a: real, b: real)
    requires a <= b
    ensures Rank(ProgressColorOf(a)) <= Rank(ProgressColorOf(b))
  {
  }
}
