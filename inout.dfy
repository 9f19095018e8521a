/**
 * `StandardInOutPutCompat`: the program's input buffer, filled a line at a
 * time by `flush`, and its output stream. The input stream is the list of
 * lines it will still deliver; the output stream is the text written so far.
 */
module InOut {
  import opened JavaTypes
  import Machine

  class StandardInOutPutCompat {
    /** The input read since the last `flush` and not yet consumed. */
    var inputBuffer: JString
    /** The lines `nextLine` will still return. */
    var lines: seq<JString>
    /** Everything printed so far. */
    var output: JString

    /** A new compat object starts with an empty buffer. */
    constructor(lines: seq<JString>)
      ensures inputBuffer == [] && this.lines == lines && output == []
    {
      inputBuffer := [];
      this.lines := lines;
      output := [];
    }

    /** `writeString`: the text, then a line break. */
    method WriteString(content: JString)
      modifies this`output
      ensures output == old(output) + Machine.Line(content)
    {
      output := output + content + [LF];
    }

    /** `writeNumber`: the decimal text of the number, then a line break. */
    method WriteNumber(num: Int32)
      modifies this`output
      ensures output == old(output) + Machine.Line(DecimalString(num as int))
    {
      output := output + DecimalString(num as int) + [LF];
    }

    /** `writeCharacter`: the character, then a line break. */
    method WriteCharacter(character: JChar)
      modifies this`output
      ensures output == old(output) + Machine.Line([character])
    {
      output := output + [character, LF];
    }

    /** `readCharacter`: the code of the first buffered character, which is consumed, or -1. */
    method ReadCharacter() returns (c: Int32)
      modifies this`inputBuffer
      ensures (c, inputBuffer) == Machine.ReadCharacter(old(inputBuffer))
    {
      if inputBuffer != [] {
        c := inputBuffer[0] as int as Int32;
        inputBuffer := inputBuffer[1..];
      } else {
        c := -1;
      }
    }

    /**
     * `flush`: the buffer becomes the next input line, whatever it held
     * before; false when the stream has no line left, which `nextLine`
     * reports as an exception.
     */
    method Flush() returns (ok: bool)
      modifies this`inputBuffer, this`lines
      ensures ok == (old(lines) != [])
      ensures ok ==> inputBuffer == old(lines)[0] && lines == old(lines)[1..]
      ensures !ok ==> inputBuffer == old(inputBuffer) && lines == old(lines)
    {
      if lines == [] {
        return false;
      }
      inputBuffer := lines[0];
      lines := lines[1..];
      ok := true;
    }
  }
}
