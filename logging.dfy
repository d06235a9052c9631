/** Log output, modelled as the sequence of lines a call writes. */
module Logging {
  /** One logged line and its level. */
  datatype LogLine = InfoLine(message: string) | WarnLine(message: string) | ErrorLine(message: string)

  /** Every message logged at warning level, in order. */
  function AllWarn(messages: seq<string>): (r: seq<LogLine>)
    ensures |r| == |messages|
    ensures forall i :: 0 <= i < |messages| ==> r[i] == WarnLine(messages[i])
  {
    seq(|messages|, i requires 0 <= i < |messages| => WarnLine(messages[i]))
  }

  /** Every message logged at error level, in order. */
  function AllError(messages: seq<string>): (r: seq<LogLine>)
    ensures |r| == |messages|
    ensures forall i :: 0 <= i < |messages| ==> r[i] == ErrorLine(messages[i])
  {
    seq(|messages|, i requires 0 <= i < |messages| => ErrorLine(messages[i]))
  }
}
