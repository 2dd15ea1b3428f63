/**
 * Replacing a section of a WebAssembly component: the LEB128 length encoding of
 * section 5.2.2 of the WebAssembly Core Specification, and finding a section's
 * header by looking back from its content.
 */
module Embed {
  import opened LockRecords
  import opened BlockStorages

  type u32 = x: int | 0 <= x < 0x1_0000_0000

  /** Seven bits a byte, lowest first, the top bit set on all but the last. */
  function Leb128(value: nat): (s: seq<byte>)
    ensures |s| >= 1
  {
    if value < 128 then [value] else [value % 128 + 128] + Leb128(value / 128)
  }

  datatype Decoded = Decoded(value: nat, length: nat)

  /** Read one number off the front of `s`. */
  function DecodeLeb128(s: seq<byte>): Option<Decoded> {
    if s == [] then None
    else if s[0] < 128 then Some(Decoded(s[0], 1))
    else
      var rest := DecodeLeb128(s[1..]);
      if rest.None? then None
      else Some(Decoded(s[0] - 128 + 128 * rest.value.value, rest.value.length + 1))
  }

  /** An encoding: continuation bytes, then one that is not. */
  predicate IsLeb128(s: seq<byte>) {
    s != [] && s[|s| - 1] < 128 && forall i :: 0 <= i < |s| - 1 ==> s[i] >= 128
  }

  method WriteLeb128(output: seq<byte>, number: u32) returns (result: seq<byte>)
    ensures result == output + Leb128(number)
  {
    result := output;
    var value: nat := number;
    var done := false;
    while !done
      invariant !done ==> result + Leb128(value) == output + Leb128(number)
      invariant done ==> result == output + Leb128(number)
      decreases if done then 0 else 1, value
    {
      var byte := value % 128;
      value := value / 128;
      if value != 0 {
        byte := byte + 128;
      } else {
        done := true;
      }
      result := result + [byte];
    }
  }

  /** Decoding inverts the encoder, whatever follows. */
  lemma {:induction false} DecodeUndoesEncode(value: nat, rest: seq<byte>)
    ensures DecodeLeb128(Leb128(value) + rest) == Some(Decoded(value, |Leb128(value)|))
  {
    var s := Leb128(value) + rest;
    if value >= 128 {
      assert s[1..] == Leb128(value / 128) + rest;
      DecodeUndoesEncode(value / 128, rest);
    }
  }

  /** Every encoding of a number is at least as long as the encoder's. */
  lemma {:induction false} EncodeIsShortest(s: seq<byte>)
    requires IsLeb128(s)
    ensures DecodeLeb128(s).Some? && DecodeLeb128(s).value.length == |s| && |Leb128(DecodeLeb128(s).value.value)| <= |s|
  {
    if |s| > 1 {
      EncodeIsShortest(s[1..]);
      var low, high := s[0] - 128, DecodeLeb128(s[1..]).value.value;
      var value := DecodeLeb128(s).value.value;
      assert value == low + 128 * high && value / 128 == high;
    }
  }

  lemma {:induction false} EncodesProperly(value: nat)
    ensures IsLeb128(Leb128(value))
  {
    if value >= 128 {
      EncodesProperly(value / 128);
      var rest := Leb128(value / 128);
      assert forall i :: 1 <= i < |rest| + 1 ==> Leb128(value)[i] == rest[i - 1];
    }
  }

  function Power128(n: nat): nat { if n == 0 then 1 else 128 * Power128(n - 1) }

  lemma {:induction false} EncodedLength(value: nat, n: nat)
    requires 1 <= n && value < Power128(n)
    ensures |Leb128(value)| <= n
  {
    if value >= 128 {
      assert n > 1;
      EncodedLength(value / 128, n - 1);
    }
  }

  lemma U32Length(value: u32)
    ensures 1 <= |Leb128(value)| <= 5
  {
    assert Power128(5) == 34359738368;
    EncodedLength(value, 5);
  }

  // ------------------------------------------------------ section headers ---

  /** What the search accepts as a header at `p` for content at `start`: the
      section id, then nothing that ends a length before the last byte. */
  predicate HeaderAt(bytes: seq<byte>, p: nat, start: nat, id: byte)
    requires p < start <= |bytes|
  {
    bytes[p] == id && forall j :: p < j < start - 1 ==> bytes[j] >= 128
  }

  /** The nearest acceptable header two to six bytes back. */
  method FindSectionHeaderStart(bytes: seq<byte>, start: nat, id: byte) returns (r: Option<nat>)
    requires start <= |bytes|
    ensures r.Some? ==> r.value < start && 2 <= start - r.value <= 6 && HeaderAt(bytes, r.value, start, id)
    ensures r.Some? ==> forall q :: r.value < q <= start - 2 ==> !HeaderAt(bytes, q, start, id)
    ensures r.None? ==> forall q :: 0 <= q && start - 6 <= q <= start - 2 ==> !HeaderAt(bytes, q, start, id)
  {
    for back := 2 to 7
      invariant forall q :: 0 <= q && start - back < q <= start - 2 ==> !HeaderAt(bytes, q, start, id)
    {
      if back <= start {
        var p := start - back;
        if bytes[p] == id {
          var pos := p + 1;
          while pos < start && (pos == p + 1 || bytes[pos - 1] >= 128)
            invariant p < pos <= start
            invariant forall j :: p < j < pos - 1 ==> bytes[j] >= 128
            decreases start - pos
          {
            pos := pos + 1;
          }
          if pos == start {
            return Some(p);
          }
          assert bytes[pos - 1] < 128 && p < pos - 1 < start - 1;
        }
      }
    }
    r := None;
  }

  /** A section: its id, the encoded length, its content. */
  function Section(id: byte, length: seq<byte>, content: seq<byte>): seq<byte> {
    [id] + length + content
  }

  /** Which headers are acceptable in front of a section's content: the true one,
      and one inside the length exactly where a continuation byte is the id. */
  lemma HeadersInside(prefix: seq<byte>, id: byte, length: seq<byte>, tail: seq<byte>, q: nat)
    requires IsLeb128(length) && |prefix| <= q < |prefix| + |length|
    ensures var bytes, start := prefix + [id] + length + tail, |prefix| + 1 + |length|;
            HeaderAt(bytes, q, start, id) <==> q == |prefix| || length[q - |prefix| - 1] == id
  {
    var bytes, start := prefix + [id] + length + tail, |prefix| + 1 + |length|;
    assert bytes[|prefix|] == id;
    assert forall j :: |prefix| < j < start ==> bytes[j] == length[j - |prefix| - 1];
  }

  /** The search finds where a header began, for any prefix and any encoding of up
      to five bytes, exactly when no continuation byte of the length is the id. */
  method RecoverHeader(prefix: seq<byte>, id: byte, length: seq<byte>, tail: seq<byte>) returns (r: Option<nat>)
    requires IsLeb128(length) && |length| <= 5
    ensures r == Some(|prefix|) <==> forall i :: 0 <= i < |length| - 1 ==> length[i] != id
    ensures id < 128 ==> r == Some(|prefix|)
  {
    var start := |prefix| + 1 + |length|;
    var bytes := prefix + [id] + length + tail;
    r := FindSectionHeaderStart(bytes, start, id);
    forall q | |prefix| <= q < |prefix| + |length|
      ensures HeaderAt(bytes, q, start, id) <==> q == |prefix| || length[q - |prefix| - 1] == id
    {
      HeadersInside(prefix, id, length, tail, q);
    }
    assert HeaderAt(bytes, |prefix|, start, id);
    if r != Some(|prefix|) {
      assert length[r.value - |prefix| - 1] == id;
    } else {
      forall i | 0 <= i < |length| - 1 ensures length[i] != id {
        assert !HeaderAt(bytes, |prefix| + 1 + i, start, id);
      }
    }
  }

  // ------------------------------------------------------------ splicing ---

  /** `component` has a section `id` whose content is at `start..end`. */
  ghost predicate HasSection(component: seq<byte>, start: nat, end: nat, id: byte,
                             prefix: seq<byte>, length: seq<byte>, inner: seq<byte>, suffix: seq<byte>) {
    && component == prefix + Section(id, length, inner) + suffix
    && IsLeb128(length) && |length| <= 5 && id < 128
    && start == |prefix| + 1 + |length| && end == start + |inner|
  }

  /** In front of such a content the true header is the nearest acceptable one. */
  lemma NearestHeader(component: seq<byte>, start: nat, end: nat, id: byte,
                      prefix: seq<byte>, length: seq<byte>, inner: seq<byte>, suffix: seq<byte>)
    requires HasSection(component, start, end, id, prefix, length, inner, suffix)
    ensures start <= end <= |component| && HeaderAt(component, |prefix|, start, id)
    ensures forall q :: |prefix| < q <= start - 2 ==> !HeaderAt(component, q, start, id)
    ensures component[..|prefix|] == prefix && component[end..] == suffix
  {
    assert component == prefix + [id] + length + (inner + suffix);
    forall q | |prefix| <= q < |prefix| + |length|
      ensures HeaderAt(component, q, start, id) <==> q == |prefix| || length[q - |prefix| - 1] == id
    {
      HeadersInside(prefix, id, length, inner + suffix, q);
    }
  }

  /** Put `content` in the place of the section content at `start..end`: the result
      is the component with that section built anew. The length is cut to 32 bits. */
  method ReplaceSection(component: seq<byte>, start: nat, end: nat, id: byte, content: seq<byte>) returns (r: Option<seq<byte>>)
    requires start <= end <= |component|
    ensures forall prefix, length, inner, suffix ::
              HasSection(component, start, end, id, prefix, length, inner, suffix)
              ==> r == Some(prefix + Section(id, Leb128(|content| % 0x1_0000_0000), content) + suffix)
  {
    hide HeaderAt;
    var header := FindSectionHeaderStart(component, start, id);
    if header.None? {
      r := None;
    } else {
      var spliced := component[..header.value] + [id];
      spliced := WriteLeb128(spliced, |content| % 0x1_0000_0000);
      spliced := spliced + content + component[end..];
      r := Some(spliced);
    }
    forall prefix, length, inner, suffix | HasSection(component, start, end, id, prefix, length, inner, suffix)
      ensures r == Some(prefix + Section(id, Leb128(|content| % 0x1_0000_0000), content) + suffix)
    {
      NearestHeader(component, start, end, id, prefix, length, inner, suffix);
      assert header == Some(|prefix|);
      var encoded := Leb128(|content| % 0x1_0000_0000);
      assert prefix + [id] + encoded + content + suffix == prefix + Section(id, encoded, content) + suffix;
    }
  }
}
