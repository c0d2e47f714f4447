/**
 * `parse_parameter_name` (src/parser/parser.rs, and the identical copy in
 * parser/src/parser.rs): the name inside an identifier token `{name}`.
 */
module ParameterNames {

  /** The text left once the first and the last character are dropped; nothing is left of fewer than two. */
  function ParameterName(value: string): string {
    if |value| < 2 then "" else value[1..|value| - 1]
  }

  /**
   * The source's steps: a character iterator over `value` whose front is advanced once
   * (`next`) and whose back is retreated once (`next_back`); what remains is the result.
   */
  method ParseParameterName(value: string) returns (name: string)
    ensures |value| >= 2 ==> |name| == |value| - 2
    ensures |value| < 2 ==> name == ""
    ensures forall i :: 0 <= i < |name| ==> name[i] == value[i + 1]
    ensures name == ParameterName(value)
  {
    var front, back := 0, |value|;
    // chars.next()
    if front < back {
      front := front + 1;
    }
    // chars.next_back()
    if front < back {
      back := back - 1;
    }
    name := value[front..back];
  }

  /** Stripping the braces of `{name}` gives back `name`, whatever characters it holds. */
  lemma BracesRoundTrip(name: string)
    ensures ParameterName("{" + name + "}") == name
  {
    var t := "{" + name + "}";
    assert t[1..|t| - 1] == name;
  }
}
