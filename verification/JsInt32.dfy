/**
  The JavaScript operators that the browser's SHA-256 uses, on numbers that are
  integers. Every bitwise operator first reduces its operands to 32 bits
  (ToInt32 or ToUint32 of ECMA-262); only >>> gives an unsigned result.
 */
module JsInt32 {
  import opened Bits
  import opened Fips180

  function ToUint32(x: int): (r: Word)
    ensures r == Mod32(x)
  {
    x % TWO32
  }

  function ToInt32(x: int): (r: int)
    ensures -0x8000_0000 <= r < 0x8000_0000
    ensures ToUint32(r) == ToUint32(x)
    ensures -0x8000_0000 <= x < 0x8000_0000 ==> r == x
  {
    var u := x % TWO32;
    if u >= 0x8000_0000 then u - TWO32 else u
  }

  function BitAnd(x: int, y: int): (r: int)
    ensures ToUint32(r) == AndW(ToUint32(x), ToUint32(y))
  {
    ToInt32(AndW(ToUint32(x), ToUint32(y)))
  }

  function BitOr(x: int, y: int): (r: int)
    ensures ToUint32(r) == OrW(ToUint32(x), ToUint32(y))
  {
    ToInt32(OrW(ToUint32(x), ToUint32(y)))
  }

  function BitXor(x: int, y: int): (r: int)
    ensures ToUint32(r) == XorW(ToUint32(x), ToUint32(y))
  {
    ToInt32(XorW(ToUint32(x), ToUint32(y)))
  }

  function BitNot(x: int): (r: int)
    ensures ToUint32(r) == NotW(ToUint32(x))
  {
    -ToInt32(x) - 1
  }

  /** x << n */
  function Shl(x: int, n: nat): (r: int)
    requires n < 32
    ensures ToUint32(r) == ShiftLeft(n, ToUint32(x))
  {
    ToInt32(ShiftLeft(n, ToUint32(x)))
  }

  /** x >> n, which keeps the sign: it rounds toward minus infinity. */
  function Sar(x: int, n: nat): int
    requires n < 32
  {
    Halve(ToInt32(x), n)
  }

  /** x >>> n */
  function Shr(x: int, n: nat): (r: int)
    requires n < 32
    ensures ToUint32(r) == ShiftRight(n, ToUint32(x))
  {
    ShiftRight(n, ToUint32(x))
  }

  /**
    A JavaScript array with holes. Only a non-negative index is an element and
    moves the length; a negative one is stored as an ordinary property.
   */
  datatype JsArray = JsArray(cells: map<int, int>, length: nat) {
    /** words[index] ?? 0 */
    function Get(index: int): int {
      if index in cells then cells[index] else 0
    }

    function Put(index: int, value: int): JsArray {
      JsArray(cells[index := value], if index >= length then index + 1 else length)
    }
  }
}
