/**
 * Classification of a log line against the built-in threat signatures.
 * The source tests "malicious" first and "attack" second, in an if/else-if
 * chain, so the first keyword found decides the category.
 */
module Threats {
  import opened Wrappers
  import opened Text

  const Malicious: string := "malicious"
  const Attack: string := "attack"

  /** Every category a line can be classified into. */
  const Categories: set<string> := {Malicious, Attack}

  /** A keyword and the category it reports. */
  datatype Signature = Signature(keyword: string, category: string)

  /** The signature list in priority order. */
  const Signatures: seq<Signature> := [Signature(Malicious, Malicious), Signature(Attack, Attack)]

  /**
   * The category of a line: the first keyword, in priority order, that the
   * line contains, or None when it contains neither.
   */
  function Classify(line: string): (r: Option<string>)
    ensures r.Some? ==> r.value in Categories && Contains(line, r.value)
    ensures r == Some(Attack) ==> !Contains(line, Malicious)
    ensures r.None? <==> !Contains(line, Malicious) && !Contains(line, Attack)
  {
    if Contains(line, Malicious) then Some(Malicious)
    else if Contains(line, Attack) then Some(Attack)
    else None
  }

  /** Reference definition: an ordered scan returning the first signature that matches. */
  function FirstMatch(sigs: seq<Signature>, line: string): (r: Option<string>)
    ensures r.Some? ==> exists i :: 0 <= i < |sigs| && sigs[i].category == r.value && Contains(line, sigs[i].keyword)
    ensures r.None? ==> forall i :: 0 <= i < |sigs| ==> !Contains(line, sigs[i].keyword)
  {
    if sigs == [] then None
    else if Contains(line, sigs[0].keyword) then Some(sigs[0].category)
    else FirstMatch(sigs[1..], line)
  }

  /** The scan stops at the first matching signature: no earlier one matches. */
  lemma {:induction false} FirstMatchIsFirst(sigs: seq<Signature>, line: string, i: nat)
    requires i < |sigs| && Contains(line, sigs[i].keyword)
    requires forall j :: 0 <= j < i ==> !Contains(line, sigs[j].keyword)
    ensures FirstMatch(sigs, line) == Some(sigs[i].category)
  {
    if i > 0 {
      FirstMatchIsFirst(sigs[1..], line, i - 1);
    }
  }

  /** The if/else-if chain is the ordered scan over the signature list. */
  lemma ClassifyIsFirstMatch(line: string)
    ensures Classify(line) == FirstMatch(Signatures, line)
  {
    if Contains(line, Malicious) {
      FirstMatchIsFirst(Signatures, line, 0);
    } else if Contains(line, Attack) {
      FirstMatchIsFirst(Signatures, line, 1);
    }
  }

  /** A line with both keywords is counted as malicious only. */
  lemma PriorityOfMalicious(line: string)
    requires Contains(line, Malicious) && Contains(line, Attack)
    ensures Classify(line) == Some(Malicious)
  {
  }
}
