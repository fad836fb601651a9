/** The two decoders of mpack over one message. */
module Decoders {
  import opened Bytes
  import opened Format
  import opened Grammar
  import R = Reader
  import opened ParserState
  import opened ParserProof
  import T = TreeParser
  import opened Wrappers

  /** The tree parser, with pages for its nodes, and mpack_discard on an in-memory reader accept the
      same messages and take the same number of bytes. */
  method ParseAndDiscard(data: seq<byte>) returns (parsed: bool, parsedSize: nat, discarded: bool, discardedSize: nat)
    ensures parsed == discarded
    ensures parsed ==> parsedSize == discardedSize && Decode(data).Some? && Decode(data).value.size == parsedSize
  {
    hide Decode;
    var tree := new T.Parser(data, None);
    parsed, parsedSize := tree.error == Ok, tree.size;
    var reader := new R.Reader.InMemory(data);
    reader.Discard();
    discarded := reader.error == R.Ok;
    reader.BufferedOnly();
    discardedSize := if discarded then |data| - reader.left else 0;
  }
}
