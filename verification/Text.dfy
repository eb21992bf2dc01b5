/** The string checks that notification records and queue payloads go through. */
module Text {
  import opened Basics

  predicate Control(c: char) {
    c as int < 0x20 || c as int == 0x7F
  }

  /** What `str.strip` removes. */
  predicate Space(c: char) {
    var n := c as int;
    || 0x09 <= n <= 0x0D || 0x1C <= n <= 0x20 || n == 0x85 || n == 0xA0 || n == 0x1680
    || 0x2000 <= n <= 0x200A || n == 0x2028 || n == 0x2029 || n == 0x202F || n == 0x205F || n == 0x3000
  }

  /** Bidirectional controls, which display text must not carry. */
  predicate Directional(c: char) {
    var n := c as int;
    n == 0x061C || n == 0x200E || n == 0x200F || 0x202A <= n < 0x202F || 0x2066 <= n < 0x206A
  }

  predicate Blank(s: string) {
    forall i | 0 <= i < |s| :: Space(s[i])
  }

  predicate ControlFree(s: string) {
    forall i | 0 <= i < |s| :: !Control(s[i])
  }

  predicate DisplaySafe(s: string) {
    forall i | 0 <= i < |s| :: !Directional(s[i])
  }

  function SafeDisplay(s: string): string {
    Filter(s, c => !Directional(c))
  }

  function TrimLeft(s: string): string {
    if s != [] && Space(s[0]) then TrimLeft(s[1..]) else s
  }

  function TrimRight(s: string): string {
    if s != [] && Space(s[|s| - 1]) then TrimRight(s[..|s| - 1]) else s
  }

  function Strip(s: string): string {
    TrimRight(TrimLeft(s))
  }

  const Stripped: string -> string := (s: string) => Strip(s)

  predicate Trimmed(s: string) {
    s != [] ==> !Space(s[0]) && !Space(s[|s| - 1])
  }

  /** `_required`: a non-blank string without control characters, returned trimmed. */
  function Required(s: string): Option<string> {
    if Blank(s) || !ControlFree(s) then None else Some(Strip(s))
  }

  /** The strings `_required` returns unchanged. */
  predicate Clean(s: string) {
    !Blank(s) && ControlFree(s) && Trimmed(s)
  }

  lemma {:induction false} TrimLeftLength(s: string)
    ensures |TrimLeft(s)| <= |s|
    ensures |TrimLeft(s)| == |s| ==> TrimLeft(s) == s
  {
    if s != [] && Space(s[0]) {
      TrimLeftLength(s[1..]);
    }
  }

  lemma {:induction false} TrimRightLength(s: string)
    ensures |TrimRight(s)| <= |s|
    ensures |TrimRight(s)| == |s| ==> TrimRight(s) == s
  {
    if s != [] && Space(s[|s| - 1]) {
      TrimRightLength(s[..|s| - 1]);
    }
  }

  lemma StripFixed(s: string)
    ensures Strip(s) == s <==> Trimmed(s)
  {
    TrimLeftLength(s);
    TrimRightLength(TrimLeft(s));
    if s != [] && Space(s[0]) {
      TrimLeftLength(s[1..]);
    } else if s != [] && Space(s[|s| - 1]) {
      TrimRightLength(s[..|s| - 1]);
    }
  }

  /** `_required` accepts and keeps a string exactly when it is clean. */
  lemma RequiredKeeps(s: string)
    ensures Required(s) == Some(s) <==> Clean(s)
  {
    StripFixed(s);
  }

  lemma {:induction false} TrimLeftShape(s: string)
    ensures TrimLeft(s) != [] ==> !Space(TrimLeft(s)[0])
    ensures !Blank(s) ==> !Blank(TrimLeft(s))
    ensures ControlFree(s) ==> ControlFree(TrimLeft(s))
  {
    if s != [] && Space(s[0]) {
      TrimLeftShape(s[1..]);
      assert s == [s[0]] + s[1..];
    }
  }

  lemma {:induction false} TrimRightShape(s: string)
    ensures TrimRight(s) != [] ==> TrimRight(s)[0] == s[0] && !Space(TrimRight(s)[|TrimRight(s)| - 1])
    ensures !Blank(s) ==> !Blank(TrimRight(s))
    ensures ControlFree(s) ==> ControlFree(TrimRight(s))
  {
    if s != [] && Space(s[|s| - 1]) {
      TrimRightShape(s[..|s| - 1]);
      assert s == s[..|s| - 1] + [s[|s| - 1]];
    }
  }

  /** What `_required` returns is clean, so requiring it again changes nothing. */
  lemma RequiredIsClean(s: string)
    requires Required(s).Some?
    ensures Clean(Required(s).value)
  {
    StripIsTrimmed(s);
  }

  lemma StripIsTrimmed(s: string)
    ensures Trimmed(Strip(s))
    ensures !Blank(s) ==> !Blank(Strip(s))
    ensures ControlFree(s) ==> ControlFree(Strip(s))
  {
    TrimLeftShape(s);
    TrimRightShape(TrimLeft(s));
  }

  lemma SafeDisplayFixed(s: string)
    requires DisplaySafe(s)
    ensures SafeDisplay(s) == s
  {
    FilterAll(s, c => !Directional(c));
  }

  /** Decimal rendering of a count. */
  function Decimal(n: nat): string {
    if n < 10 then [Digit(n)] else Decimal(n / 10) + [Digit(n % 10)]
  }

  function Digit(n: nat): char
    requires n < 10
  {
    (n + 0x30) as char
  }

  predicate Plain(s: string) {
    s != [] && forall i | 0 <= i < |s| :: 0x20 <= s[i] as int < 0x7F
  }

  lemma {:induction false} DecimalPlain(n: nat)
    ensures Plain(Decimal(n)) && !Space(Decimal(n)[0])
  {
    if n >= 10 {
      DecimalPlain(n / 10);
    }
  }

  /** A count with fixed words around it. */
  function Counted(before: string, n: nat, after: string): string {
    before + Decimal(n) + after
  }

  lemma CountedPlain(before: string, n: nat, after: string)
    requires Plain(before) && Plain(after) && !Space(after[|after| - 1])
    ensures Plain(Counted(before, n, after))
    ensures !Space(Counted(before, n, after)[|Counted(before, n, after)| - 1])
  {
    DecimalPlain(n);
  }

  /** Visible text: what titles and summaries must be. */
  predicate Visible(s: string) {
    !Blank(s) && ControlFree(s) && DisplaySafe(s)
  }

  lemma VisibleAppend(a: string, b: string)
    requires Visible(a) && Plain(b)
    ensures Visible(a + b)
    ensures Trimmed(a) && !Space(b[|b| - 1]) ==> Trimmed(a + b)
  {
    var i :| 0 <= i < |a| && !Space(a[i]);
    assert (a + b)[i] == a[i];
  }
}
