/** What several modules share: std::optional, surfaces and places on them, 32-bit integers,
    and two facts about sequences. */
module Common {

  datatype Option<+T> = None | Some(value: T)

  /** `b` if it is set, and `a` otherwise. */
  function Later<T>(a: Option<T>, b: Option<T>): Option<T> { if b.Some? then b else a }

  /** A wl_surface pointer. */
  type Surface = nat
  const NULL: Surface := 0

  /** A place on a surface; the coordinates are only copied, so their scale does not matter. */
  datatype Location = Location(surface: Surface, x: int, y: int)

  function Max(a: int, b: int): int { if a < b then b else a }
  function Min(a: int, b: int): int { if b < a then b else a }

  predicate Int32(n: int) { -0x8000_0000 <= n < 0x8000_0000 }

  /** The value that is left of an integer in 32 bits. */
  function Wrap(n: int): int { (n + 0x8000_0000) % 0x1_0000_0000 - 0x8000_0000 }

  lemma WrapIsIdentity(n: int)
    ensures Wrap(n) == n <==> Int32(n)
  {
  }

  lemma Associate<T>(a: seq<T>, b: seq<T>, c: seq<T>)
    ensures a + (b + c) == a + b + c
  {
  }

  lemma HeadOfConcat<T>(a: seq<T>, b: seq<T>)
    requires a != []
    ensures (a + b)[0] == a[0] && (a + b)[1..] == a[1..] + b
  {
  }
}
