/**
 Strings on the wire and on disk: a 16-bit length, then that many bytes, which must be UTF-8.
 Strings are their bytes here; the UTF-8 test is a parameter.
 */
module Text {
  import opened Bytes

  type TextTest = Buffer -> bool

  /** The length is cast to 16 bits, so it is right only below 2^16. */
  function PutText(text: Buffer): Buffer {
    Put(2, |text|) + text
  }

  /** Too few bytes, bytes that are no string, or a string and what follows it. */
  datatype Piece = NoText | NotText | Text(bytes: Buffer, rest: Buffer)

  function TakeText(utf8: TextTest, src: Buffer): Piece {
    if |src| < 2 then NoText
    else
      var (n, rest) := Get(2, src);
      if |rest| < n then NoText
      else if !utf8(rest[..n]) then NotText
      else Text(rest[..n], rest[n..])
  }

  predicate FitsText(utf8: TextTest, text: Buffer) {
    utf8(text) && |text| < U16
  }

  lemma TakeOfPut(utf8: TextTest, text: Buffer, rest: Buffer)
    requires FitsText(utf8, text)
    ensures TakeText(utf8, PutText(text) + rest) == Text(text, rest)
  {
    Widths();
    assert PutText(text) + rest == Put(2, |text|) + (text + rest);
    GetOfPut(2, |text|, text + rest);
    assert (text + rest)[..|text|] == text && (text + rest)[|text|..] == rest;
  }

  lemma PutOfTake(utf8: TextTest, src: Buffer)
    requires TakeText(utf8, src).Text?
    ensures var p := TakeText(utf8, src); FitsText(utf8, p.bytes) && src == PutText(p.bytes) + p.rest
  {
    Widths();
    PutOfGet(2, src);
    var (n, rest) := Get(2, src);
    assert rest == rest[..n] + rest[n..];
    assert Put(2, n) + (rest[..n] + rest[n..]) == Put(2, n) + rest[..n] + rest[n..];
  }

  /** More bytes never change a piece that was decided. */
  lemma TakeIsStable(utf8: TextTest, src: Buffer, more: Buffer)
    ensures TakeText(utf8, src).NotText? ==> TakeText(utf8, src + more).NotText?
    ensures TakeText(utf8, src).Text? ==>
              TakeText(utf8, src + more) == TakeText(utf8, src).(rest := TakeText(utf8, src).rest + more)
  {
    if |src| >= 2 {
      var (n, rest) := Get(2, src);
      assert (src + more)[..2] == src[..2] && (src + more)[2..] == rest + more;
      if n <= |rest| {
        assert (rest + more)[..n] == rest[..n] && (rest + more)[n..] == rest[n..] + more;
      }
    }
  }
}
