/** The five password rules that both the sign-up form
    (BloggerWebApp/src/Pages/Register.tsx) and the profile form
    (BloggerWebApp/src/Pages/EditProfile.tsx) check, each with its own
    wording. The rules are tested with single-class regular expressions
    without the `u` flag: `[a-z]`, `[A-Z]`, `\d` and `[^A-Za-z0-9]`. */
module PasswordPolicy {
  import opened Text

  /** The character classes of the four regular expressions. All are ASCII. */
  datatype CharClass = LowerLetter | UpperLetter | DecimalDigit | NonAlphanumeric

  predicate InClass(c: char, k: CharClass) {
    match k
    case LowerLetter => 'a' <= c <= 'z'
    case UpperLetter => 'A' <= c <= 'Z'
    case DecimalDigit => '0' <= c <= '9'
    case NonAlphanumeric => !('a' <= c <= 'z' || 'A' <= c <= 'Z' || '0' <= c <= '9')
  }

  /** `/[class]/.test(s)`: a left-to-right scan for a character in the class. */
  predicate Test(k: CharClass, s: string) {
    s != [] && (InClass(s[0], k) || Test(k, s[1..]))
  }

  /** Some character of `s` belongs to the class. */
  ghost predicate Occurs(k: CharClass, s: string) {
    exists i :: 0 <= i < |s| && InClass(s[i], k)
  }

  lemma {:induction false} TestIffOccurs(k: CharClass, s: string)
    ensures Test(k, s) <==> Occurs(k, s)
  {
    if s != [] {
      TestIffOccurs(k, s[1..]);
      if Occurs(k, s[1..]) {
        var i :| 0 <= i < |s[1..]| && InClass(s[1..][i], k);
        assert InClass(s[i + 1], k);
      }
      if Occurs(k, s) && !InClass(s[0], k) {
        var i :| 0 <= i < |s| && InClass(s[i], k);
        assert InClass(s[1..][i - 1], k);
      }
    }
  }

  /** The rules, named after what a password must have. */
  datatype Rule = MinLength | HasLower | HasUpper | HasDigit | HasSpecial

  /** The order in which both forms check the rules and list their messages. */
  const CheckOrder: seq<Rule> := [MinLength, HasLower, HasUpper, HasDigit, HasSpecial]

  function Rank(r: Rule): nat {
    match r
    case MinLength => 0
    case HasLower => 1
    case HasUpper => 2
    case HasDigit => 3
    case HasSpecial => 4
  }

  /** Whether `password` keeps `rule`, as the form's `if` tests it. */
  predicate Passes(password: string, rule: Rule) {
    match rule
    case MinLength => Utf16Length(password) >= 6
    case HasLower => Test(LowerLetter, password)
    case HasUpper => Test(UpperLetter, password)
    case HasDigit => Test(DecimalDigit, password)
    case HasSpecial => Test(NonAlphanumeric, password)
  }

  /** A strong password: six code units or more, with a lowercase letter, an
      uppercase letter, a digit and a character that is none of these. */
  ghost predicate Strong(password: string) {
    && Utf16Length(password) >= 6
    && Occurs(LowerLetter, password)
    && Occurs(UpperLetter, password)
    && Occurs(DecimalDigit, password)
    && Occurs(NonAlphanumeric, password)
  }

  /** The rules of `rules` that `password` breaks, in the order of `rules`. */
  function Failing(rules: seq<Rule>, password: string): (r: seq<Rule>)
    ensures |r| <= |rules|
  {
    if rules == [] then []
    else (if Passes(password, rules[0]) then [] else [rules[0]]) + Failing(rules[1..], password)
  }

  lemma {:induction false} FailingMembers(rules: seq<Rule>, password: string, x: Rule)
    ensures x in Failing(rules, password) <==> x in rules && !Passes(password, x)
  {
    if rules != [] {
      FailingMembers(rules[1..], password, x);
      assert rules == [rules[0]] + rules[1..];
    }
  }

  /** The rules `password` breaks, in the checking order. */
  function FailedRules(password: string): (rules: seq<Rule>)
    ensures |rules| <= |CheckOrder|
    ensures MinLength in rules <==> Utf16Length(password) < 6
  {
    FailingMembers(CheckOrder, password, MinLength);
    Failing(CheckOrder, password)
  }

  ghost predicate StrictlyRanked(rules: seq<Rule>) {
    forall i, j :: 0 <= i < j < |rules| ==> Rank(rules[i]) < Rank(rules[j])
  }

  lemma {:induction false} FailingKeepsOrder(rules: seq<Rule>, password: string)
    requires StrictlyRanked(rules)
    ensures StrictlyRanked(Failing(rules, password))
  {
    if rules != [] {
      FailingKeepsOrder(rules[1..], password);
      var rest := Failing(rules[1..], password);
      forall x | x in rest ensures Rank(rules[0]) < Rank(x) {
        FailingMembers(rules[1..], password, x);
        var j :| 0 <= j < |rules[1..]| && rules[1..][j] == x;
        assert rules[j + 1] == x;
      }
    }
  }

  /** One entry per broken rule and no other: the list is exactly the broken
      rules, each once, in the checking order, so at most five. */
  lemma FailedRulesExact(password: string)
    ensures forall r :: r in FailedRules(password) <==> !Passes(password, r)
    ensures StrictlyRanked(FailedRules(password))
    ensures |FailedRules(password)| <= 5
  {
    FailingKeepsOrder(CheckOrder, password);
    forall r ensures r in FailedRules(password) <==> !Passes(password, r) {
      FailingMembers(CheckOrder, password, r);
    }
  }

  /** A password gets no complaint exactly when it is strong. */
  lemma FailedRulesEmptyIffStrong(password: string)
    ensures FailedRules(password) == [] <==> Strong(password)
  {
    TestIffOccurs(LowerLetter, password);
    TestIffOccurs(UpperLetter, password);
    TestIffOccurs(DecimalDigit, password);
    TestIffOccurs(NonAlphanumeric, password);
    FailedRulesExact(password);
    if FailedRules(password) != [] {
      assert FailedRules(password)[0] in FailedRules(password);
    } else {
      assert Passes(password, MinLength) && Passes(password, HasLower) && Passes(password, HasUpper);
      assert Passes(password, HasDigit) && Passes(password, HasSpecial);
    }
  }

  /** What one `if (...) errors.push(...)` step contributes for `rule`. */
  function Entry(password: string, rule: Rule): seq<Rule> {
    if Passes(password, rule) then [] else [rule]
  }

  /** The first step of `Failing`, as one `push`. */
  lemma FailingStep(rules: seq<Rule>, password: string)
    requires rules != []
    ensures Failing(rules, password) == Entry(password, rules[0]) + Failing(rules[1..], password)
  {
  }

  /** Five concatenated pieces, regrouped from the right to the left. */
  lemma Regroup(a: seq<Rule>, b: seq<Rule>, c: seq<Rule>, d: seq<Rule>, e: seq<Rule>)
    ensures a + (b + (c + (d + e))) == (((a + b) + c) + d) + e
  {
    assert c + (d + e) == (c + d) + e;
    assert b + ((c + d) + e) == (b + (c + d)) + e;
    assert a + ((b + (c + d)) + e) == (a + (b + (c + d))) + e;
    assert b + (c + d) == (b + c) + d;
    assert a + ((b + c) + d) == (a + (b + c)) + d;
    assert a + (b + c) == (a + b) + c;
  }

  /** The list written out rule by rule, as the forms build it with `push`. */
  lemma FailedRulesUnfold(password: string)
    ensures FailedRules(password)
      == Entry(password, MinLength) + Entry(password, HasLower) + Entry(password, HasUpper)
       + Entry(password, HasDigit) + Entry(password, HasSpecial)
  {
    var p := password;
    var r1 := [HasLower, HasUpper, HasDigit, HasSpecial];
    var r2 := [HasUpper, HasDigit, HasSpecial];
    var r3 := [HasDigit, HasSpecial];
    var r4 := [HasSpecial];
    assert CheckOrder[1..] == r1 && r1[1..] == r2 && r2[1..] == r3 && r3[1..] == r4 && r4[1..] == [];
    var f4 := Failing(r4, p);
    FailingStep(r4, p);
    assert f4 == Entry(p, HasSpecial);
    FailingStep(r3, p);
    var f3 := Failing(r3, p);
    assert f3 == Entry(p, HasDigit) + f4;
    FailingStep(r2, p);
    var f2 := Failing(r2, p);
    assert f2 == Entry(p, HasUpper) + f3;
    FailingStep(r1, p);
    var f1 := Failing(r1, p);
    assert f1 == Entry(p, HasLower) + f2;
    FailingStep(CheckOrder, p);
    assert FailedRules(p) == Entry(p, MinLength) + f1;
    Regroup(Entry(p, MinLength), Entry(p, HasLower), Entry(p, HasUpper), Entry(p, HasDigit), Entry(p, HasSpecial));
  }

  /** The empty password breaks all five rules. */
  lemma EmptyBreaksAll()
    ensures FailedRules("") == CheckOrder
  {
    FailedRulesUnfold("");
  }

  /** The rules are independent: "aB1!" keeps every rule but the length. */
  lemma OnlyLengthFails()
    ensures FailedRules("aB1!") == [MinLength]
  {
    var p := "aB1!";
    assert Test(LowerLetter, p);
    assert Test(UpperLetter, p[1..]);
    assert Test(DecimalDigit, p[1..][1..]);
    assert Test(NonAlphanumeric, p[1..][1..][1..]);
    FailedRulesUnfold(p);
  }

  /** Each broken rule becomes one message, in the same order. */
  function Describe(rules: seq<Rule>, text: Rule -> string): (messages: seq<string>)
    ensures |messages| == |rules|
    ensures forall i :: 0 <= i < |rules| ==> messages[i] == text(rules[i])
  {
    seq(|rules|, i requires 0 <= i < |rules| => text(rules[i]))
  }

  lemma DescribeAppend(rules: seq<Rule>, more: seq<Rule>, text: Rule -> string)
    ensures Describe(rules + more, text) == Describe(rules, text) + Describe(more, text)
  {
  }

  /** One `if (...) messages.push(text(rule))` step extends the described
      list by the entry of `rule`. */
  lemma DescribePush(messages: seq<string>, rules: seq<Rule>, password: string, rule: Rule, text: Rule -> string)
    requires messages == Describe(rules, text)
    ensures (if Passes(password, rule) then messages else messages + [text(rule)])
      == Describe(rules + Entry(password, rule), text)
  {
  }

  /** With distinct wording per rule, the message list has no repeats. */
  lemma DescribeDistinct(rules: seq<Rule>, text: Rule -> string)
    requires StrictlyRanked(rules)
    requires forall x, y :: x != y ==> text(x) != text(y)
    ensures forall i, j :: 0 <= i < j < |rules| ==> Describe(rules, text)[i] != Describe(rules, text)[j]
  {
  }
}
