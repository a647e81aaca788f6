/** Ordered first-match dispatch on substrings, the shape of both demo providers'
    `generate_response`: a list of rules, each a set of markers and an answer; the first rule
    one of whose markers occurs in the text decides the answer. A rule may look at the
    lower-cased text instead of the text itself. */
module Dispatch {
  import opened Strings

  datatype Rule<T> = Rule(markers: seq<string>, lowered: bool, answer: T)

  /** One of the rule's markers occurs in the text (lower-cased first, if the rule says so). */
  predicate Fires<T>(rule: Rule<T>, text: string) {
    var seen := if rule.lowered then Lower(text) else text;
    exists k | 0 <= k < |rule.markers| :: Contains(seen, rule.markers[k])
  }

  /** The index of the first rule that fires, or the number of rules when none does. */
  function FirstFiring<T>(rules: seq<Rule<T>>, text: string): (k: nat)
    ensures k <= |rules|
    ensures forall j :: 0 <= j < k ==> !Fires(rules[j], text)
    ensures k < |rules| ==> Fires(rules[k], text)
  {
    if rules == [] then 0
    else if Fires(rules[0], text) then 0
    else 1 + FirstFiring(rules[1..], text)
  }

  /** The answer of the first rule that fires, or `otherwise`. */
  function FirstMatch<T>(rules: seq<Rule<T>>, text: string, otherwise: T): T {
    var k := FirstFiring(rules, text);
    if k < |rules| then rules[k].answer else otherwise
  }

  /** The first firing rule is the one that fires with no rule before it firing. */
  lemma FirstMatchIs<T>(rules: seq<Rule<T>>, text: string, otherwise: T, k: nat)
    requires k < |rules| && Fires(rules[k], text)
    requires forall j :: 0 <= j < k ==> !Fires(rules[j], text)
    ensures FirstMatch(rules, text, otherwise) == rules[k].answer
  {
  }

  /** When no rule fires the answer is the default. */
  lemma FirstMatchOtherwise<T>(rules: seq<Rule<T>>, text: string, otherwise: T)
    requires forall j :: 0 <= j < |rules| ==> !Fires(rules[j], text)
    ensures FirstMatch(rules, text, otherwise) == otherwise
  {
  }
}
