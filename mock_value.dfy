/** `mockValue` (src/util/mockValue.ts): a shape-preserving randomisation of row values for demo
    exports. Each `Math.random()` draw is an arbitrary natural number taken from an oracle indexed
    by the position inside the value, so every property below holds for every possible draw. */
module Mock {
  import opened Text
  import opened JsValues

  /** The random draws: `draw(path)` is the draw made for the scalar at `path` inside the value
      (a character index, an array index, a property index, or `[]` for the value itself). */
  type Draws = seq<nat> -> nat

  /** The draws of the element at index `j`. */
  function Sub(draw: Draws, j: nat): Draws
  {
    p => draw([j] + p)
  }

  /** `Math.floor(Math.random() * 10).toString()`. */
  function RandomDigit(n: nat): (c: char)
    ensures IsDigit(c)
  {
    DigitChar(n % 10)
  }

  const Letters: string := "abcdefghijklmnopqrstuvwxyz"

  lemma LettersAt(k: nat)
    requires k < 26
    ensures Letters[k] == ('a' as int + k) as char
  {
    assert Letters == seq(26, i requires 0 <= i < 26 => ('a' as int + i) as char);
  }

  /** `randomLetter(isUpperCase)`. */
  function RandomLetter(n: nat, isUpperCase: bool): (c: char)
    ensures IsAsciiLetter(c) && (IsAsciiUpper(c) <==> isUpperCase)
  {
    LettersAt(n % 26);
    var c := Letters[n % 26];
    if isUpperCase then UpperChar(c) else c
  }

  /** One character of `mockString`: `/\d/` (ASCII digits only, no `u` flag) becomes a random
      digit, a letter of any script a random ASCII letter of the same case, anything else stays. */
  function MockChar(c: char, rt: Runtime, n: nat): char
  {
    if IsDigit(c) then RandomDigit(n)
    else if rt.isLetter(c) then RandomLetter(n, c == rt.toUpper(c))
    else c
  }

  function MockString(s: string, rt: Runtime, draw: Draws): string
  {
    seq(|s|, i requires 0 <= i < |s| => MockChar(s[i], rt, draw([i])))
  }

  /** What a masked character may be, given the original. */
  predicate CharShape(c: char, d: char, rt: Runtime)
  {
    if IsDigit(c) then IsDigit(d)
    else if rt.isLetter(c) then IsAsciiLetter(d) && (IsAsciiUpper(d) <==> c == rt.toUpper(c))
    else d == c
  }

  ghost predicate StringShape(s: string, t: string, rt: Runtime)
  {
    |t| == |s| && forall i :: 0 <= i < |s| ==> CharShape(s[i], t[i], rt)
  }

  /** Every masked string has the original's length, and position by position a digit for a
      digit, an ASCII letter of the same case for a letter, and the same character otherwise. */
  lemma MockStringShape(s: string, rt: Runtime, draw: Draws)
    ensures StringShape(s, MockString(s, rt, draw), rt)
  {
    var t := MockString(s, rt, draw);
    forall i | 0 <= i < |s|
      ensures CharShape(s[i], t[i], rt)
    {
      assert t[i] == MockChar(s[i], rt, draw([i]));
    }
  }

  /** The draw that makes `MockChar` produce `d`. */
  function CodeOf(d: char): nat
  {
    if IsDigit(d) then d as nat - '0' as nat
    else if IsAsciiLower(d) then d as nat - 'a' as nat
    else if IsAsciiUpper(d) then d as nat - 'A' as nat
    else 0
  }

  lemma MockCharReaches(c: char, d: char, rt: Runtime)
    requires CharShape(c, d, rt)
    ensures MockChar(c, rt, CodeOf(d)) == d
  {
    if IsDigit(c) {
      assert DigitChar(CodeOf(d) % 10) == d;
    } else if rt.isLetter(c) {
      var k := CodeOf(d);
      assert k < 26 && k % 26 == k;
      LettersAt(k);
      if IsAsciiUpper(d) {
        assert UpperChar(('a' as int + k) as char) == d;
      } else {
        assert ('a' as int + k) as char == d;
      }
    }
  }

  /** Conversely, every string of that shape is the outcome of some draws: the masker can produce
      any of them. */
  lemma MockStringOnto(s: string, t: string, rt: Runtime)
    requires StringShape(s, t, rt)
    ensures exists draw: Draws :: MockString(s, rt, draw) == t
  {
    var draw: Draws := p => if |p| == 1 && p[0] < |t| then CodeOf(t[p[0]]) else 0;
    forall i | 0 <= i < |s|
      ensures MockChar(s[i], rt, draw([i])) == t[i]
    {
      assert [i][0] == i;
      MockCharReaches(s[i], t[i], rt);
    }
    assert MockString(s, rt, draw) == t;
  }

  /** Index of the first `c` in `s`, or `|s|`. */
  function IndexOf(s: string, c: char): (k: nat)
    ensures k <= |s| && (k < |s| ==> s[k] == c) && forall j :: 0 <= j < k ==> s[j] != c
  {
    if s == [] then 0 else if s[0] == c then 0 else 1 + IndexOf(s[1..], c)
  }

  function RandomDigits(n: nat, draw: Draws, offset: nat): (r: string)
    ensures |r| == n && forall i :: 0 <= i < n ==> IsDigit(r[i])
  {
    var r := seq(n, i requires 0 <= i < n => RandomDigit(draw([offset + i])));
    assert forall i :: 0 <= i < n ==> r[i] == RandomDigit(draw([offset + i]));
    r
  }

  /** The digit string `mockNumber` builds from `value.toString()` before parsing it back: with a
      `.`, the parts before and after it (`str.split('.')`, first two parts) are replaced digit by
      digit; otherwise every character is. */
  function MockNumberText(str: string, draw: Draws): string
  {
    var k := IndexOf(str, '.');
    if k < |str| then
      var rest := str[k + 1..];
      var decPart := rest[..IndexOf(rest, '.')];
      RandomDigits(k, draw, 0) + "." + RandomDigits(|decPart|, draw, k + 1)
    else RandomDigits(|str|, draw, 0)
  }

  predicate AtMostOneDot(str: string)
  {
    forall i, j :: 0 <= i < j < |str| && str[i] == '.' ==> str[j] != '.'
  }

  /** The shape of a masked number text: same length, `.` exactly where it was, a digit in every
      other place (a leading `-` included). */
  ghost predicate NumberShape(str: string, t: string)
  {
    |t| == |str| && forall i :: 0 <= i < |str| ==> (t[i] == '.' <==> str[i] == '.') && (str[i] != '.' ==> IsDigit(t[i]))
  }

  /** `Number.prototype.toString` writes at most one `.`, and for such text the digit string keeps
      its length and the position of the `.`. */
  lemma MockNumberTextShape(str: string, draw: Draws)
    requires AtMostOneDot(str)
    ensures NumberShape(str, MockNumberText(str, draw))
  {
    var k := IndexOf(str, '.');
    if k < |str| {
      var rest := str[k + 1..];
      assert IndexOf(rest, '.') == |rest|;
    }
  }

  /** `mockNumber`: the digit string parsed back with `parseFloat` or `parseInt`. */
  function MockNumber(text: string, rt: Runtime, draw: Draws): string
  {
    var mocked := MockNumberText(text, draw);
    if '.' in text then rt.parseFloat(mocked) else rt.parseInt(mocked)
  }

  /** `Math.floor(Math.random() * 11) - 5`. */
  function DayOffset(n: nat): (k: int)
    ensures -5 <= k <= 5
  {
    (n % 11) - 5
  }

  /** `Math.floor(Math.random() * 61) - 30`. */
  function MinuteOffset(n: nat): (k: int)
    ensures -30 <= k <= 30
  {
    (n % 61) - 30
  }

  function MockValue(v: Value, isTimeOnly: bool, rt: Runtime, draw: Draws): Value
    decreases v
  {
    match v
    case Null => v
    case Undefined => v
    case Arr(items) =>
      Arr(seq(|items|, j requires 0 <= j < |items| => MockValue(items[j], isTimeOnly, rt, Sub(draw, j))))
    case Obj(fields) =>
      Obj(seq(|fields|, j requires 0 <= j < |fields| =>
        Field(fields[j].key, MockValue(fields[j].value, isTimeOnly, rt, Sub(draw, j)))))
    case Date(d) =>
      if isTimeOnly then Date(rt.addMinutes(d, MinuteOffset(draw([]))))
      else Date(rt.addDays(d, DayOffset(draw([]))))
    case Num(text) => Num(MockNumber(text, rt, draw))
    case Str(s) => Str(MockString(s, rt, draw))
    case Bool(_) => v
    case BigInt(_) => v
    case Opaque(_) => v
  }

  /** The values `w` the masker may turn `v` into. */
  ghost predicate Masks(v: Value, w: Value, isTimeOnly: bool, rt: Runtime)
    decreases v
  {
    match v
    case Arr(items) =>
      w.Arr? && |w.items| == |items| &&
      forall j :: 0 <= j < |items| ==> Masks(items[j], w.items[j], isTimeOnly, rt)
    case Obj(fields) =>
      w.Obj? && |w.fields| == |fields| &&
      forall j :: 0 <= j < |fields| ==>
        w.fields[j].key == fields[j].key && Masks(fields[j].value, w.fields[j].value, isTimeOnly, rt)
    case Date(d) =>
      w.Date? &&
      if isTimeOnly then exists k :: -30 <= k <= 30 && w.at == rt.addMinutes(d, k)
      else exists k :: -5 <= k <= 5 && w.at == rt.addDays(d, k)
    case Num(text) =>
      w.Num? && exists t :: NumberShape(text, t) && w.text == (if '.' in text then rt.parseFloat(t) else rt.parseInt(t))
    case Str(s) => w.Str? && StringShape(s, w.s, rt)
    case _ => w == v
  }

  /** Whatever the draws, `mockValue` keeps the shape: null, undefined, booleans, bigints and other
      scalars are returned unchanged; strings keep length and character classes; numbers keep
      their digit layout; a date moves by whole days in [-5, 5], or by whole minutes in [-30, 30]
      when `isTimeOnly` is set; arrays keep their length and objects their keys, in order, with
      every element or property masked the same way. */
  lemma {:induction false} MockValueMasks(v: Value, isTimeOnly: bool, rt: Runtime, draw: Draws)
    requires NumbersWellFormed(v)
    ensures Masks(v, MockValue(v, isTimeOnly, rt, draw), isTimeOnly, rt)
    decreases v
  {
    var w := MockValue(v, isTimeOnly, rt, draw);
    match v
    case Arr(items) =>
      forall j | 0 <= j < |items|
        ensures Masks(items[j], w.items[j], isTimeOnly, rt)
      {
        MockValueMasks(items[j], isTimeOnly, rt, Sub(draw, j));
      }
    case Obj(fields) =>
      forall j | 0 <= j < |fields|
        ensures Masks(fields[j].value, w.fields[j].value, isTimeOnly, rt)
      {
        MockValueMasks(fields[j].value, isTimeOnly, rt, Sub(draw, j));
      }
    case Date(d) =>
    case Num(text) =>
      MockNumberTextShape(text, draw);
    case Str(s) =>
      MockStringShape(s, rt, draw);
    case _ =>
  }

  /** Every number inside the value has at most one `.` in its text, as toString() writes it. */
  ghost predicate NumbersWellFormed(v: Value)
    decreases v
  {
    match v
    case Num(text) => AtMostOneDot(text)
    case Arr(items) => forall j :: 0 <= j < |items| ==> NumbersWellFormed(items[j])
    case Obj(fields) => forall j :: 0 <= j < |fields| ==> NumbersWellFormed(fields[j].value)
    case _ => true
  }
}
