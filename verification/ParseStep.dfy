/** One step of the tree parser, on the level of the grammar: what parsing the next node of a stack
    of open containers does to the decoding of everything still pending. */
module ParseStep {
  import opened Bytes
  import opened Format
  import opened Grammar
  import opened Wrappers

  /** The window `w` holds a header, its payload bytes, and one byte for each payload object. */
  predicate Fits(w: seq<byte>) {
    && Header(w).Some?
    && var h := Header(w).value;
       h.size + PayloadBytes(h.tag) + PayloadObjects(h.tag) <= |w|
  }

  /** When the object at the front of `s` decodes, and the header fits the window, both agree. */
  lemma HeaderInWindow(s: seq<byte>, k: nat)
    requires k <= |s|
    ensures Header(s[..k]).Some? ==> Header(s) == Header(s[..k])
    ensures Header(s).Some? && Header(s).value.size <= k ==> Header(s[..k]) == Header(s)
  {
    hide Header;
    var w := s[..k];
    if Header(w).Some? {
      assert w[..Header(w).value.size] == s[..Header(w).value.size];
      HeaderLocal(w, s);
    } else if Header(s).Some? && Header(s).value.size <= k {
      assert w[..Header(s).value.size] == s[..Header(s).value.size];
      HeaderLocal(s, w);
    }
  }

  /** `n` objects are pending in `s`; `n - 1` bytes are set aside, one for each of the others. If
      the first header with its payload does not fit what is left, the whole cannot be decoded:
      the early rejection never rejects a decodable message. */
  lemma StepRejects(s: seq<byte>, n: nat)
    requires 1 <= n <= |s| && !Fits(s[..|s| - (n - 1)])
    ensures DecodeSeq(s, n).None?
  {
    hide Header, DecodeSeq;
    var k := |s| - (n - 1);
    HeaderInWindow(s, k);
    DecodeSeqCons(s, n);
  }

  /** If it fits, the objects pending before the step decode exactly when the objects pending after
      it do, to the same values, with the payload of the first put together. */
  lemma StepAccepts(s: seq<byte>, n: nat)
    requires 1 <= n <= |s| && Fits(s[..|s| - (n - 1)])
    ensures var h := Header(s[..|s| - (n - 1)]).value;
            var body := h.size + PayloadBytes(h.tag);
            var m := PayloadObjects(h.tag);
            var r := DecodeSeq(s[body..], m + (n - 1));
            && (DecodeSeq(s, n).Some? <==> r.Some?)
            && (r.Some? ==> DecodeSeq(s, n) == Some(DecodedSeq(
                  [Build(h.tag, s[h.size..body], r.value.values[..m])] + r.value.values[m..], body + r.value.size)))
  {
    hide Header, DecodeSeq, Build;
    var k := |s| - (n - 1);
    HeaderInWindow(s, k);
    DecodeSeqCons(s, n);
    var h := Header(s).value;
    var body := h.size + PayloadBytes(h.tag);
    var m := PayloadObjects(h.tag);
    var t := s[body..];
    DecodeSeqSplit(t, m, n - 1);
    if DecodeSeq(t, m).Some? {
      var l := DecodeSeq(t, m).value;
      assert s[body + l.size..] == t[l.size..];
      var r := DecodeSeq(t, m + (n - 1));
      if r.Some? {
        assert r.value.values[..m] == l.values;
        assert r.value.values == l.values + r.value.values[m..];
      }
    }
  }

  lemma SubSlice(data: seq<byte>, start: nat, end: nat, i: nat, j: nat)
    requires start <= end <= |data| && i <= j <= end - start
    ensures data[start..end][i..j] == data[start + i..start + j]
  {
    var l, r := data[start..end][i..j], data[start + i..start + j];
    assert |l| == |r|;
    forall k | 0 <= k < |l| ensures l[k] == r[k] {}
  }

  /** The header of a window that starts with a byte of layout `l`, read at its place in the data. */
  lemma WindowHeader(data: seq<byte>, start: nat, end: nat, l: Layout)
    requires start < end <= |data| && l == LayoutOf(data[start]) && !l.Reserved?
    ensures Header(data[start..end]).Some? <==> end - start >= 1 + Extra(l)
    ensures end - start >= 1 + Extra(l) ==>
              Header(data[start..end]) ==
              Some(Head(TagOf(data[start], data[start + 1..start + 1 + Extra(l)]), 1 + Extra(l)))
  {
    hide LayoutOf, TagOf;
    if end - start >= 1 + Extra(l) { SubSlice(data, start, end, 1, 1 + Extra(l)); }
  }

  lemma SizedWindow(data: seq<byte>, start: nat, end: nat, kind: Kind, width: nat)
    requires start < end <= |data| && LayoutOf(data[start]) == Sized(kind, width)
    ensures Header(data[start..end]).Some? <==> end - start >= 1 + width
    ensures end - start >= 1 + width ==>
              var n := Load(data[start + 1..start + 1 + width]);
              n < 0x1_0000_0000 && Header(data[start..end]) == Some(Head(Counted(kind, n), 1 + width))
  {
    hide LayoutOf, Load;
    Widths();
    WindowHeader(data, start, end, Sized(kind, width));
  }
}
