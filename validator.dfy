/** The rule engine: a rule maps a value to an optional message, and a
    validator runs its rules in insertion order and reports the first
    truthy message. */
module Validators {
  import opened Wrappers

  /** `ValidationResult`: a message, or `null` for "passes". */
  type ValidationResult = Option<string>

  /** `ValidationRule<T>`: a pure check of one value. */
  type Rule<-T> = T -> ValidationResult

  /** `ValidationErrors`: field key to its one message. */
  type ValidationErrors = map<string, string>

  /** `if (error)`: a result fails only when it is a non-empty string;
      `null` and `''` both pass. */
  predicate Truthy(r: ValidationResult)
  {
    r.Some? && r.value != ""
  }

  /** The result `validate` gives for a rule list: the first truthy result
      in order, else `null`. */
  function FirstFailure<T>(rules: seq<Rule<T>>, value: T): ValidationResult
  {
    if rules == [] then None
    else if Truthy(rules[0](value)) then rules[0](value)
    else FirstFailure(rules[1..], value)
  }

  /** `FirstFailure` is either `null`, when every rule passes, or the result
      of a failing rule that no earlier rule precedes. */
  lemma {:induction false} FirstFailureSpec<T>(rules: seq<Rule<T>>, value: T)
    ensures FirstFailure(rules, value).None? <==>
            forall j :: 0 <= j < |rules| ==> !Truthy(rules[j](value))
    ensures FirstFailure(rules, value).Some? ==>
            exists k :: 0 <= k < |rules| && FirstFailure(rules, value) == rules[k](value) &&
                        Truthy(rules[k](value)) &&
                        forall j :: 0 <= j < k ==> !Truthy(rules[j](value))
  {
    if rules != [] && !Truthy(rules[0](value)) {
      FirstFailureSpec(rules[1..], value);
      assert forall j :: 1 <= j < |rules| ==> rules[j] == rules[1..][j - 1];
      if FirstFailure(rules[1..], value).Some? {
        var k :| 0 <= k < |rules[1..]| && FirstFailure(rules[1..], value) == rules[1..][k](value) &&
                 Truthy(rules[1..][k](value)) &&
                 forall j :: 0 <= j < k ==> !Truthy(rules[1..][j](value));
        assert rules[k + 1] == rules[1..][k];
      }
    }
  }

  /** A failing rule `k` preceded only by passing rules decides the result. */
  lemma {:induction false} FirstFailureAt<T>(rules: seq<Rule<T>>, value: T, k: nat)
    requires k < |rules| && Truthy(rules[k](value))
    requires forall j :: 0 <= j < k ==> !Truthy(rules[j](value))
    ensures FirstFailure(rules, value) == rules[k](value)
    decreases k
  {
    if k > 0 {
      assert forall j :: 0 <= j < k - 1 ==> rules[1..][j] == rules[j + 1];
      FirstFailureAt(rules[1..], value, k - 1);
    }
  }

  /** Once a prefix fails, the rules after it are irrelevant: the result
      is decided without looking at them. */
  lemma {:induction false} FirstFailureShortCircuit<T>(rules: seq<Rule<T>>, later: seq<Rule<T>>, value: T)
    requires FirstFailure(rules, value).Some?
    ensures FirstFailure(rules + later, value) == FirstFailure(rules, value)
  {
    assert (rules + later)[0] == rules[0];
    if !Truthy(rules[0](value)) {
      assert (rules + later)[1..] == rules[1..] + later;
      FirstFailureShortCircuit(rules[1..], later, value);
    }
  }

  /** Adding a rule at the end only matters when every earlier rule passes. */
  lemma {:induction false} FirstFailureAppend<T>(rules: seq<Rule<T>>, rule: Rule<T>, value: T)
    ensures FirstFailure(rules + [rule], value) ==
            if FirstFailure(rules, value).Some? then FirstFailure(rules, value)
            else if Truthy(rule(value)) then rule(value)
            else None
  {
    if rules == [] {
      assert [] + [rule] == [rule];
    } else {
      assert (rules + [rule])[0] == rules[0];
      assert (rules + [rule])[1..] == rules[1..] + [rule];
      FirstFailureAppend(rules[1..], rule, value);
    }
  }

  /** `Validator<T>`: its private `rules` array, pushed by `addRule`. */
  class Validator<T> {
    var rules: seq<Rule<T>>

    /** `new Validator()`: no rules. */
    constructor ()
      ensures rules == []
    {
      rules := [];
    }

    /** `addRule(rule)`: appends `rule` and returns the same validator, for
        chaining. */
    method AddRule(rule: Rule<T>) returns (self: Validator<T>)
      modifies this
      ensures self == this
      ensures rules == old(rules) + [rule]
    {
      rules := rules + [rule];
      self := this;
    }

    /** `validate(value)`: tries the rules in order and returns the first
        truthy message, or `null`. `applied` counts the rules called: the
        loop stops at the first failure, so no later rule is evaluated. */
    method Validate(value: T) returns (r: ValidationResult, ghost applied: nat)
      ensures r == FirstFailure(rules, value)
      ensures r.None? || r.value != ""
      ensures r.None? ==> applied == |rules|
      ensures r.None? ==> forall j :: 0 <= j < |rules| ==> !Truthy(rules[j](value))
      ensures r.Some? ==> 0 < applied <= |rules| && r == rules[applied - 1](value) && Truthy(r)
      ensures r.Some? ==> forall j :: 0 <= j < applied - 1 ==> !Truthy(rules[j](value))
    {
      applied := 0;
      for i := 0 to |rules|
        invariant applied == i
        invariant forall j :: 0 <= j < i ==> !Truthy(rules[j](value))
      {
        var error := rules[i](value);
        applied := applied + 1;
        if Truthy(error) {
          FirstFailureAt(rules, value, i);
          return error, applied;
        }
      }
      FirstFailureSpec(rules, value);
      return None, applied;
    }
  }
}
