/** The coordinate parser of the console front end (Program.ParsePosition). */
module Program {
  import opened Grid

  /** The parser's answer: the success flag and the two out-parameters. */
  datatype Parsed = Parsed(ok: bool, x: int, y: int)

  predicate IsFile(ch: char)
  {
    'a' <= ch <= 'h'
  }

  predicate IsRank(ch: char)
  {
    '1' <= ch <= '8'
  }

  /** Reads a square such as "e2": the rank gives the row (rank 8 is row 0), the file the column. */
  function ParsePosition(input: string): (r: Parsed)
    ensures r.ok <==> |input| == 2 && IsFile(input[0]) && IsRank(input[1])
    ensures r.ok ==> OnBoard(r.x, r.y)
    ensures !r.ok ==> r.x == -1 && r.y == -1
  {
    if |input| != 2 then Parsed(false, -1, -1)
    else
      var colChar := input[0];
      var rowChar := input[1];
      if colChar < 'a' || colChar > 'h' || rowChar < '1' || rowChar > '8' then Parsed(false, -1, -1)
      else Parsed(true, '8' as int - rowChar as int, colChar as int - 'a' as int)
  }

  /** The name of square (x, y), the inverse of ParsePosition. */
  function SquareName(x: int, y: int): (s: string)
    requires OnBoard(x, y)
    ensures |s| == 2 && IsFile(s[0]) && IsRank(s[1])
  {
    [('a' as int + y) as char, ('8' as int - x) as char]
  }

  /** Every square's name parses back to that square. */
  lemma ParseSquareName(x: int, y: int)
    requires OnBoard(x, y)
    ensures ParsePosition(SquareName(x, y)) == Parsed(true, x, y)
  {
  }

  /** Every accepted input is the name of the square it parses to. */
  lemma SquareNameOfParse(input: string)
    requires ParsePosition(input).ok
    ensures SquareName(ParsePosition(input).x, ParsePosition(input).y) == input
  {
  }
}
