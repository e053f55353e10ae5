/** Decorator: `make_blink` wraps a zero-argument string function so that its
    result comes back between a "<blink>" prefix and a "</blink" suffix (the
    closing tag has no final '>', exactly as the source writes it). */
module Decorator {
  import opened Exceptions

  const Open: string := "<blink>"
  const Close: string := "</blink"

  /** The string transform the wrapper applies to the wrapped result. */
  function Blink(s: string): (r: string)
    ensures |r| == |Open| + |s| + |Close|
    ensures r[..|Open|] == Open && r[|r| - |Close|..] == Close
    ensures r[|Open|..|r| - |Close|] == s
  {
    Open + s + Close
  }

  /** The inverse of `Blink`: strips the prefix and the suffix, or fails when
      the string is not a wrapped one. */
  function Unblink(r: string): (s: Option<string>)
  {
    if |r| >= |Open| + |Close| && r[..|Open|] == Open && r[|r| - |Close|..] == Close
    then Some(r[|Open|..|r| - |Close|])
    else None
  }

  /** `make_blink(function)`: the returned `decorator` calls the wrapped
      function once and decorates its result. */
  function MakeBlink(f: () -> string): (g: () -> string)
    ensures Unblink(g()) == Some(f())
  {
    () => Blink(f())
  }

  /** Unwrapping undoes wrapping, and a wrapped string has exactly one
      decomposition: the original result sits once between prefix and suffix. */
  lemma UnblinkBlink(s: string, r: string)
    ensures Unblink(Blink(s)) == Some(s)
    ensures Unblink(r) == Some(s) <==> r == Blink(s)
  {
  }

  /** Decorating a decorated function still forwards to the root function:
      two unwraps give back its result. */
  lemma MakeBlinkComposes(f: () -> string)
    ensures Unblink(MakeBlink(MakeBlink(f))()) == Some(Blink(f()))
    ensures MakeBlink(MakeBlink(f))() == Blink(Blink(f()))
  {
  }

  /** `hello_world`, before decoration. */
  function HelloWorld(): string {
    "Hello World"
  }

  /** The decorated `hello_world()` of the driver. */
  lemma HelloWorldBlinks()
    ensures MakeBlink(HelloWorld)() == "<blink>Hello World</blink"
  {
  }
}
