/**
 * The greeting utilities of the hello-world package: a configuration, a
 * greeter holding it, the free `utils` functions that take the same values
 * as arguments, and the two validators.
 */
module Hello {
  import opened Wrappers
  import opened Text

  /** `HelloConfig`; `repeat_count` is a `usize`, never negative. */
  datatype HelloConfig = HelloConfig(greeting: string, name: string, repeatCount: nat)

  /** `HelloWorld`: a greeter over a configuration that none of its methods change. */
  datatype HelloWorld = HelloWorld(config: HelloConfig)

  const GreetingEmpty := "Greeting cannot be empty"
  const NameEmpty := "Name cannot be empty"
  const RepeatCountZero := "Repeat count must be greater than 0"
  const CountZero := "Count must be greater than 0"

  /** `HelloConfig::default()` */
  function DefaultConfig(): HelloConfig {
    HelloConfig("Hello", "World", 1)
  }

  /** `HelloWorld::default()`: a greeter over the default configuration. */
  function Default(): HelloWorld {
    HelloWorld(DefaultConfig())
  }

  /** `HelloWorld::greet`: `"{greeting} {name}!"`. */
  function Greet(hw: HelloWorld): string {
    hw.config.greeting + " " + hw.config.name + "!"
  }

  /** The greeting, the name and the exclamation mark sit where `greet` puts them. */
  lemma GreetLayout(hw: HelloWorld)
    ensures var g, n, r := hw.config.greeting, hw.config.name, Greet(hw);
      && |r| == |g| + |n| + 2
      && r[..|g|] == g && r[|g|] == ' '
      && r[|g| + 1..|g| + 1 + |n|] == n && r[|r| - 1] == '!'
  {
  }

  /** `HelloWorld::greet_many`: greeting number `i + 1` for each `i` in `0..repeat_count`. */
  function GreetMany(hw: HelloWorld): (r: seq<string>)
    ensures |r| == hw.config.repeatCount
    ensures forall i :: 0 <= i < |r| ==> r[i] == Greet(hw) + " (#" + Decimal(i + 1) + ")"
  {
    var g, n := hw.config.greeting, hw.config.name;
    seq(hw.config.repeatCount, i requires 0 <= i => g + " " + n + "! (#" + Decimal(i + 1) + ")")
  }

  /** The numbers of `greet_many` read back as 1, 2, ..., repeat_count, in order. */
  lemma {:induction false} GreetManyNumbering(hw: HelloWorld, i: nat)
    requires i < hw.config.repeatCount
    ensures var r, p := GreetMany(hw), |Greet(hw)| + 3;
      && r[i][..p] == Greet(hw) + " (#"
      && r[i][|r[i]| - 1] == ')'
      && ParseDecimal(r[i][p..|r[i]| - 1]) == i + 1
  {
    var r, p := GreetMany(hw), |Greet(hw)| + 3;
    assert r[i][p..|r[i]| - 1] == Decimal(i + 1);
    DecimalRoundTrip(i + 1);
  }

  /** No two greetings of `greet_many` are the same string. */
  lemma GreetManyDistinct(hw: HelloWorld, i: nat, j: nat)
    requires i < j < hw.config.repeatCount
    ensures GreetMany(hw)[i] != GreetMany(hw)[j]
  {
    var r := GreetMany(hw);
    if r[i] == r[j] {
      GreetManyNumbering(hw, i);
      GreetManyNumbering(hw, j);
      assert false;
    }
  }

  /** `HelloWorld::validate_config`: the three checks in source order, first failure wins. */
  function ValidateConfig(hw: HelloWorld): Outcome<string> {
    if IsBlank(hw.config.greeting) then Fail(GreetingEmpty)
    else if IsBlank(hw.config.name) then Fail(NameEmpty)
    else if hw.config.repeatCount == 0 then Fail(RepeatCountZero)
    else Pass
  }

  /** Some character of `s` is not whitespace. */
  predicate HasVisibleChar(s: string) {
    exists i :: 0 <= i < |s| && !IsWhitespace(s[i])
  }

  /**
   * `validate_config` accepts exactly the configurations whose greeting and name
   * each hold a non-whitespace character and whose count is positive; otherwise
   * it reports the first of those three conditions that fails.
   */
  lemma ValidateConfigSpec(hw: HelloWorld)
    ensures ValidateConfig(hw) ==
      if !HasVisibleChar(hw.config.greeting) then Fail(GreetingEmpty)
      else if !HasVisibleChar(hw.config.name) then Fail(NameEmpty)
      else if hw.config.repeatCount == 0 then Fail(RepeatCountZero)
      else Pass
    ensures ValidateConfig(hw) == Pass <==>
      HasVisibleChar(hw.config.greeting) && HasVisibleChar(hw.config.name) && hw.config.repeatCount > 0
  {
  }

  /** `utils::create_greeting`: `"{greeting} {name}!"`. */
  function CreateGreeting(greeting: string, name: string): string {
    greeting + " " + name + "!"
  }

  /** `utils::create_multiple_greetings` */
  function CreateMultipleGreetings(greeting: string, name: string, count: nat): seq<string> {
    seq(count, i requires 0 <= i => greeting + " " + name + "! (#" + Decimal(i + 1) + ")")
  }

  /** `utils::validate_greeting_config` */
  function ValidateGreetingConfig(greeting: string, name: string, count: nat): Outcome<string> {
    if IsBlank(greeting) then Fail(GreetingEmpty)
    else if IsBlank(name) then Fail(NameEmpty)
    else if count == 0 then Fail(CountZero)
    else Pass
  }

  /** The free `utils` functions agree with the greeter over the same values. */
  lemma UtilsAgreeWithGreeter(greeting: string, name: string, count: nat)
    ensures var hw := HelloWorld(HelloConfig(greeting, name, count));
      && CreateGreeting(greeting, name) == Greet(hw)
      && CreateMultipleGreetings(greeting, name, count) == GreetMany(hw)
  {
  }

  /**
   * The two validators accept the same inputs and give the same error, except
   * that a zero count is reported as "Count must..." instead of "Repeat count must...".
   */
  lemma ValidatorsAgree(greeting: string, name: string, count: nat)
    ensures var v, u := ValidateConfig(HelloWorld(HelloConfig(greeting, name, count))),
                        ValidateGreetingConfig(greeting, name, count);
      && (v == Pass <==> u == Pass)
      && (v == Fail(RepeatCountZero) <==> u == Fail(CountZero))
      && (v != Fail(RepeatCountZero) ==> v == u)
  {
  }

  /** The default greeter validates and greets "Hello World!". */
  lemma DefaultBehaviour()
    ensures ValidateConfig(Default()) == Pass
    ensures Greet(Default()) == "Hello World!"
  {
    assert !IsWhitespace("Hello"[0]) && !IsWhitespace("World"[0]);
    ValidateConfigSpec(Default());
  }

  /** The default greeter's `greet_many` gives one greeting, numbered 1. */
  lemma DefaultGreetMany()
    ensures GreetMany(Default()) == ["Hello World! (#1)"]
  {
    assert Decimal(1) == "1";
    var r := GreetMany(Default());
    assert r[0] == "Hello World! (#1)";
  }

  /** A custom greeter greets with its own greeting and name. */
  lemma ExampleCustomGreeting()
    ensures Greet(HelloWorld(HelloConfig("Hi", "Rust", 1))) == "Hi Rust!"
    ensures CreateGreeting("Hi", "Rust") == "Hi Rust!"
  {
  }

  /** Three greetings for "Hello" and "Test", numbered from 1. */
  lemma ExampleGreetMany()
    ensures GreetMany(HelloWorld(HelloConfig("Hello", "Test", 3)))
      == ["Hello Test! (#1)", "Hello Test! (#2)", "Hello Test! (#3)"]
  {
    assert Decimal(1) == "1" && Decimal(2) == "2" && Decimal(3) == "3";
    var r := GreetMany(HelloWorld(HelloConfig("Hello", "Test", 3)));
    assert r[0] == "Hello Test! (#1)" && r[1] == "Hello Test! (#2)" && r[2] == "Hello Test! (#3)";
  }

  /** Two greetings from the free function, numbered from 1. */
  lemma ExampleCreateMultipleGreetings()
    ensures CreateMultipleGreetings("Hello", "Test", 2) == ["Hello Test! (#1)", "Hello Test! (#2)"]
  {
    assert Decimal(1) == "1" && Decimal(2) == "2";
    var u := CreateMultipleGreetings("Hello", "Test", 2);
    assert u[0] == "Hello Test! (#1)" && u[1] == "Hello Test! (#2)";
  }

  /** An empty greeting, an empty name and a zero count are each refused. */
  lemma ExampleValidationFailures()
    ensures ValidateGreetingConfig("", "World", 1) == Fail(GreetingEmpty)
    ensures ValidateGreetingConfig("Hello", "", 1) == Fail(NameEmpty)
    ensures ValidateGreetingConfig("Hello", "World", 0) == Fail(CountZero)
    ensures ValidateConfig(HelloWorld(HelloConfig("", "World", 1))) == Fail(GreetingEmpty)
  {
    assert !IsWhitespace("Hello"[0]) && !IsWhitespace("World"[0]);
  }
}
