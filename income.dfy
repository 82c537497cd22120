/** `classify_income`: the household income band of a survey answer. */
module Income {
  import opened Wrappers

  const Band1: string := "RM4,850 & below"
  const Band2: string := "RM4,851 to RM10,960"
  const Band3: string := "RM10,961 to RM15,039"
  const Band4: string := "RM15,040 & above"

  /** The group of an income answer; a missing answer or any other text has none. */
  function ClassifyIncome(income: Option<string>): (g: Option<string>)
    ensures g == Some("B40") <==> income == Some(Band1)
    ensures g == Some("M40") <==> income == Some(Band2)
    ensures g == Some("T20") <==> income == Some(Band3) || income == Some(Band4)
    ensures g.None? <==> income !in {Some(Band1), Some(Band2), Some(Band3), Some(Band4)}
  {
    if income == Some(Band1) then Some("B40")
    else if income == Some(Band2) then Some("M40")
    else if income in {Some(Band4), Some(Band3)} then Some("T20")
    else None
  }
}
