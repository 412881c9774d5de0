/**
 * The envelope every integration event carries (BaseIntegrationEvent):
 * a correlation id, the text form of a GUID, and a creation instant.
 * The GUID generator and the clock are oracles the caller hands in.
 */
module EventBusMessages {
  import opened Wrappers

  /** One hexadecimal digit of a GUID. */
  type Nibble = n: int | 0 <= n < 16

  /** A GUID as its 32 hexadecimal digits, in the order its text form writes them. */
  type Guid = s: seq<Nibble> | |s| == 32 witness seq(32, _ => 0)

  /** Length of the text form "xxxxxxxx-xxxx-xxxx-xxxx-xxxxxxxxxxxx". */
  const GuidTextLength := 36

  /** Positions of the four dashes in the text form of a GUID. */
  predicate IsDashPosition(i: int) {
    i == 8 || i == 13 || i == 18 || i == 23
  }

  /** The digit written at a non-dash position `i` of the text form. */
  function DigitIndex(i: int): int {
    i - (if i > 8 then 1 else 0) - (if i > 13 then 1 else 0)
      - (if i > 18 then 1 else 0) - (if i > 23 then 1 else 0)
  }

  /** The position in the text form at which digit `k` is written. */
  function CharIndex(k: int): int {
    k + (if k >= 8 then 1 else 0) + (if k >= 12 then 1 else 0)
      + (if k >= 16 then 1 else 0) + (if k >= 20 then 1 else 0)
  }

  /** Lower-case hexadecimal digit, as Guid.ToString() writes it. */
  function HexChar(n: Nibble): char {
    if n < 10 then (48 + n) as char else (87 + n) as char
  }

  /** The value of a lower-case hexadecimal digit, if `c` is one. */
  function HexValue(c: char): Option<Nibble> {
    if '0' <= c <= '9' then Some(c as int - 48)
    else if 'a' <= c <= 'f' then Some(c as int - 87)
    else None
  }

  /** Guid.ToString(): the "D" format, 8-4-4-4-12 lower-case digits. */
  function GuidString(g: Guid): (s: string)
    ensures |s| == GuidTextLength
  {
    seq(GuidTextLength, i requires 0 <= i < GuidTextLength =>
      if IsDashPosition(i) then '-' else HexChar(g[DigitIndex(i)]))
  }

  /** Whether `s` has the shape of the text form of a GUID. */
  predicate IsGuidText(s: string) {
    |s| == GuidTextLength &&
    forall i :: 0 <= i < |s| ==>
      if IsDashPosition(i) then s[i] == '-' else HexValue(s[i]).Some?
  }

  /** Guid.Parse restricted to the canonical form GuidString produces. */
  function ParseGuid(s: string): Option<Guid> {
    if IsGuidText(s) then
      Some(seq(32, k requires 0 <= k < 32 => HexValue(s[CharIndex(k)]).value))
    else None
  }

  /** Reading back the text form of a GUID gives the same GUID. */
  lemma ParseGuidString(g: Guid)
    ensures ParseGuid(GuidString(g)) == Some(g)
  {
    var s := GuidString(g);
    forall i | 0 <= i < |s| && !IsDashPosition(i)
      ensures HexValue(s[i]) == Some(g[DigitIndex(i)])
    {
    }
    assert IsGuidText(s);
    var h := ParseGuid(s).value;
    forall k | 0 <= k < 32 ensures h[k] == g[k] {
      assert DigitIndex(CharIndex(k)) == k;
    }
    assert h == g;
  }

  /** Every string ParseGuid accepts is the text form of the GUID it yields. */
  lemma GuidStringOfParse(s: string)
    requires ParseGuid(s).Some?
    ensures GuidString(ParseGuid(s).value) == s
  {
    var g := ParseGuid(s).value;
    var t := GuidString(g);
    forall i | 0 <= i < |s| ensures t[i] == s[i] {
      if !IsDashPosition(i) {
        assert CharIndex(DigitIndex(i)) == i;
      }
    }
  }

  /** Distinct GUIDs have distinct correlation ids. */
  lemma GuidStringInjective(a: Guid, b: Guid)
    requires GuidString(a) == GuidString(b)
    ensures a == b
  {
    ParseGuidString(a);
    ParseGuidString(b);
  }

  datatype DateTimeKind = Unspecified | Utc | Local

  /** A System.DateTime: a tick count and the kind of clock it was read from. */
  datatype DateTime = DateTime(ticks: int, kind: DateTimeKind)

  /** Guid.NewGuid(): every GUID it has handed out, in order. */
  class GuidGenerator {
    var drawn: seq<Guid>

    constructor ()
      ensures drawn == []
    {
      drawn := [];
    }

    /** Draws an arbitrary GUID; the model promises nothing about its digits. */
    method NewGuid() returns (g: Guid)
      modifies this
      ensures drawn == old(drawn) + [g]
    {
      g := *;
      drawn := drawn + [g];
    }
  }

  /** DateTime.UtcNow: the clock's current reading. */
  class UtcClock {
    var now: int

    constructor (start: int)
      ensures now == start
    {
      now := start;
    }

    method UtcNow() returns (t: DateTime)
      ensures t.kind == Utc && t.ticks == now
    {
      t := DateTime(now, Utc);
    }
  }

  /**
   * BaseIntegrationEvent. CorelationId has a public setter; CreationDate a
   * private one that only the constructors use, so it is a `const` here.
   */
  class BaseIntegrationEvent {
    var corelationId: string
    const creationDate: DateTime

    /** The parameterless constructor: a fresh GUID and the current UTC instant. */
    constructor (guids: GuidGenerator, clock: UtcClock)
      modifies guids
      ensures |guids.drawn| == |old(guids.drawn)| + 1
      ensures guids.drawn == old(guids.drawn) + [guids.drawn[|guids.drawn| - 1]]
      ensures corelationId == GuidString(guids.drawn[|guids.drawn| - 1])
      ensures creationDate == DateTime(clock.now, Utc)
    {
      var g := guids.NewGuid();
      var t := clock.UtcNow();
      corelationId := GuidString(g);
      creationDate := t;
    }

    /** The two-argument constructor: exactly the given id and date, nothing drawn. */
    constructor FromValues(id: Guid, date: DateTime)
      ensures corelationId == GuidString(id)
      ensures creationDate == date
    {
      corelationId := GuidString(id);
      creationDate := date;
    }

    /** The public setter of CorelationId; CreationDate, a `const`, cannot change. */
    method SetCorelationId(id: string)
      modifies this
      ensures corelationId == id
    {
      corelationId := id;
    }
  }
}
