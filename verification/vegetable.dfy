/**
 The vegetable `switch` of the playground: the first matching case decides
 the comment, from an exact name, a pair of exact names, a suffix test,
 and a default.
 */
module Vegetable {

  /** `s` ends with `suffix`. */
  predicate HasSuffix(s: string, suffix: string) {
    |suffix| <= |s| && s[|s| - |suffix|..] == suffix
  }

  /** The suffix test agrees with its definition by concatenation: `s`
      ends with `suffix` exactly when some prefix completes it to `s`. */
  lemma HasSuffixIff(s: string, suffix: string)
    ensures HasSuffix(s, suffix) <==> exists prefix :: prefix + suffix == s
  {
    if HasSuffix(s, suffix) {
      var prefix := s[..|s| - |suffix|];
      assert prefix + suffix == s;
    }
    if exists prefix :: prefix + suffix == s {
      var prefix :| prefix + suffix == s;
      assert s[|s| - |suffix|..] == suffix;
    }
  }

  /** The comment the switch of lines 63-75 binds, first match winning. */
  function Comment(vegetable: string): (comment: string)
    ensures comment == "ok" || comment == "so so" || comment == "good" || comment == "no"
  {
    if vegetable == "celery" then "ok"
    else if vegetable == "cucumber" || vegetable == "watercress" then "so so"
    else if HasSuffix(vegetable, "pepper") then "good"
    else "no"
  }

  /** None of the exactly named vegetables ends with "pepper". */
  lemma NamedAreNotPeppers()
    ensures !HasSuffix("celery", "pepper")
    ensures !HasSuffix("cucumber", "pepper")
    ensures !HasSuffix("watercress", "pepper")
  {

  }

  /** Because no exactly named vegetable ends with "pepper", the four cases
      never overlap and first-match order does not change the outcome: each
      comment is given exactly on its own condition. */
  lemma CommentClassification(vegetable: string)
    ensures Comment(vegetable) == "ok" <==> vegetable == "celery"
    ensures Comment(vegetable) == "so so" <==> vegetable == "cucumber" || vegetable == "watercress"
    ensures Comment(vegetable) == "good" <==> HasSuffix(vegetable, "pepper")
    ensures Comment(vegetable) == "no" <==>
      vegetable != "celery" && vegetable != "cucumber" && vegetable != "watercress" && !HasSuffix(vegetable, "pepper")
  {

  }

  /** The playground's vegetable, "red pepper", is "good". */
  lemma RedPepperIsGood()
    ensures Comment("red pepper") == "good"
  {

  }
}
