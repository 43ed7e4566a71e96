/** The pass/fail record of one assignment check. Both fields are fixed when the record is
    made and nothing changes them, so it is a value. */
module Checks {

  datatype Check = Check(pass: bool, error: string)

  /** The message a passing check reports. */
  const PassedMessage: string := "Check passed"

  /** `passed()`: the outcome the check was made with. */
  function Passed(c: Check): (r: bool)
    ensures r <==> c == Check(true, c.error)
  {
    c.pass
  }

  /** `getMessage()`: the fixed pass message when the check passed, whatever
      error text it carries; the stored error text otherwise. */
  function GetMessage(c: Check): (r: string)
    ensures Passed(c) ==> r == PassedMessage
    ensures !Passed(c) ==> r == c.error
  {
    if c.pass then PassedMessage else c.error
  }

  /** A passing check's message does not depend on its error text, and a
      failing check gives its error text back. */
  lemma MessageOfCheck(pass: bool, e1: string, e2: string)
    ensures GetMessage(Check(true, e1)) == GetMessage(Check(true, e2))
    ensures Passed(Check(pass, e1)) == pass
    ensures GetMessage(Check(false, e1)) == e1
  {
  }
}
