/**
 * The cursor of the legacy front end (src/parser/char_stream.rs): the
 * characters of the program and the index of the next one. Neither `peek`
 * nor `read` checks for the end of input; reading past it is a precondition
 * here.
 */
module LegacyCharStream {

  class CharStream {
    const code: string
    var index: nat

    /** `new`: the characters of `source`, read from the start. */
    constructor (source: string)
      ensures code == source && index == 0
    {
      code := source;
      index := 0;
    }

    /** `peek`: the next character; nothing moves. */
    method Peek() returns (c: char)
      requires index < |code|
      ensures c == code[index]
    {
      c := code[index];
    }

    /** `read`: the next character, and the cursor moves past exactly that one. */
    method Read() returns (c: char)
      requires index < |code|
      modifies this
      ensures c == code[old(index)] && index == old(index) + 1
    {
      c := code[index];
      index := index + 1;
    }
  }

  /** `peek` followed by `read` sees the same character, and only `read` moves the cursor. */
  method PeekThenRead(cs: CharStream) returns (peeked: char, read: char)
    requires cs.index < |cs.code|
    modifies cs
    ensures peeked == read == cs.code[old(cs.index)] && cs.index == old(cs.index) + 1
  {
    peeked := cs.Peek();
    read := cs.Read();
  }
}
