// internal/pbr/runner.go: how a command can end.
module Commands {

  // Cut is a command that took effect and is reported as failed.
  datatype Answer = Works | Refused | Cut

  // The answer to a command that only asks whether something is there. Missing
  // is an error text isMissingError recognises, Broken any other error.
  datatype Probe = Honest | Missing | Broken

  predicate Found(p: Probe, truth: bool) {
    p.Honest? && truth
  }

  // The ith of a list of answers; commands beyond its end are refused.
  function Nth(answers: seq<Answer>, i: nat): Answer {
    if i < |answers| then answers[i] else Refused
  }

  predicate AllWork(answers: seq<Answer>, n: nat) {
    |answers| >= n && forall i | 0 <= i < n :: answers[i].Works?
  }
}
