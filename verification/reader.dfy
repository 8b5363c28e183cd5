/** The reader's public entry point: a frame read dispatches on the open file's mode
    after splitting the field specification into names. */
module LammpsReader {
  import opened Wrappers
  import opened Tokenize
  import opened Atoms
  import opened State
  import opened TextFrame
  import opened BinaryFrame

  /** Read one frame. `spec` names the fields wanted, separated by spaces; in binary
      mode it must name every field of the file, in order. With no file open the read
      is false and calls no hook. */
  function ReadFrame(r: Reader, spec: string, conv: Conversions): (res: ReadResult)
    requires Valid(r)
    ensures Valid(res.reader) && SameFile(r, res.reader)
    ensures !r.isOpen ==> res == ReadResult(Failed(NotOpen), [], r)
    ensures r.isOpen && !r.binary && r.eof ==> res == ReadResult(Failed(AtEnd), [], r)
    ensures r.isOpen && r.binary && r.next == |r.contents.records| ==> res == ReadResult(Failed(AtEnd), [], r)
    ensures res.outcome.Read? ==> EndsOnce(res.trace) && AtMostOneStart(res.trace)
    ensures !res.outcome.Read? ==> NoEnd(res.trace)
    ensures res.outcome.Read? && r.binary ==> res.reader.next == r.next + 1
    ensures res.outcome.Read? && !r.binary ==> res.reader.eof || res.reader.pos > r.pos
  {
    var args := Explode(spec);
    if !r.isOpen then ReadResult(Failed(NotOpen), [], r)
    else if r.binary then ReadBinaryFrame(r, args)
    else ReadTextFrame(r, args, conv)
  }

  /** Opening without saying which mode opens in text mode. */
  lemma OpenDefaultsToText(r: Reader, name: string, c: Contents)
    ensures Open(r, name, Some(c)).0
    ensures !Open(r, name, Some(c)).1.binary
  {
  }

  /** After a close every read is false and calls no hook, whatever was open before. */
  lemma ReadAfterClose(r: Reader, spec: string, conv: Conversions)
    ensures ReadFrame(Close(r), spec, conv) == ReadResult(Failed(NotOpen), [], Close(r))
  {
  }

  /** Text-mode reads come to rest: once a read has reached the end of the file every
      further read is false and calls no hook. */
  lemma TextReadAfterEnd(r: Reader, spec: string, conv: Conversions)
    requires Valid(r) && r.isOpen && !r.binary
    requires ReadFrame(r, spec, conv).reader.eof
    ensures var r' := ReadFrame(r, spec, conv).reader;
      ReadFrame(r', spec, conv) == ReadResult(Failed(AtEnd), [], r')
  {
  }
}
