/**
  The message naming where a patched allocation was made, through every level of
  inlining.
 */
module Diag {
  import opened Common
  import Json

  datatype Location = Location(filename: string, line: nat, col: nat)

  /** File and line, and the column unless it is 0. */
  function LocationText(loc: Location): string {
    loc.filename + ":" + Decimal(loc.line) + (if loc.col != 0 then ":" + Decimal(loc.col) else "")
  }

  /** The text names the file, then the line in decimal, and then the column unless it is 0. */
  lemma LocationNamed(loc: Location) returns (line: string, col: string)
    ensures forall i :: 0 <= i < |line| ==> IsDigit(line[i])
    ensures forall i :: 0 <= i < |col| ==> IsDigit(col[i])
    ensures Json.Value(line) == loc.line && Json.Value(col) == loc.col
    ensures LocationText(loc) == loc.filename + ":" + line + (if loc.col == 0 then "" else ":" + col)
  {
    line, col := Decimal(loc.line), Decimal(loc.col);
    Json.DecimalValue(loc.line);
    Json.DecimalValue(loc.col);
  }

  /**
    The message for a chain of locations, each inlined at the next, written
    after `os`. Only the outermost call closes a bracket after its callee; the
    others close their caller's before they open their own.
   */
  function Message(os: string, chain: seq<Location>, first: bool): string
    requires chain != []
    decreases |chain|
  {
    var here := os + LocationText(chain[0]);
    if |chain| == 1 then here
    else
      Message(here + (if first then "" else " ]") + "\n\tInlined @[ ", chain[1..], false)
      + (if first then " ]" else "")
  }

  /** One closed segment for each location. */
  function Segments(chain: seq<Location>): string {
    if chain == [] then "" else "\n\tInlined @[ " + LocationText(chain[0]) + " ]" + Segments(chain[1..])
  }

  lemma {:induction false} InnerMessage(os: string, chain: seq<Location>)
    requires chain != []
    ensures Message(os, chain, false) + " ]" == os + LocationText(chain[0]) + " ]" + Segments(chain[1..])
    decreases |chain|
  {
    var here := os + LocationText(chain[0]) + " ]";
    if |chain| == 1 {
      assert here + "" == here;
    } else {
      InnerMessage(here + "\n\tInlined @[ ", chain[1..]);
      Regroup(here, "\n\tInlined @[ ", LocationText(chain[1]), " ]", Segments(chain[1..][1..]));
    }
  }

  lemma Regroup(a: string, b: string, c: string, d: string, e: string)
    ensures a + b + c + d + e == a + (b + c + d + e)
  {
  }

  /**
    The recursive printer gives the flat form: the first location, and then for
    each further one a segment that is closed before the next begins.
   */
  lemma MessageIsFlat(os: string, chain: seq<Location>)
    requires chain != []
    ensures Message(os, chain, true) == os + LocationText(chain[0]) + Segments(chain[1..])
  {
    var here := os + LocationText(chain[0]);
    if |chain| == 1 {
      assert here + "" == here;
    } else {
      assert here + "" + "\n\tInlined @[ " == here + "\n\tInlined @[ ";
      InnerMessage(here + "\n\tInlined @[ ", chain[1..]);
      Regroup(here, "\n\tInlined @[ ", LocationText(chain[1]), " ]", Segments(chain[1..][1..]));
    }
  }
}
