/** Random numbers and the random part of rule names; every draw is an arbitrary one in range. */
module RandomUtils {

  const UPPER_CASE_LETTERS := "ABCDEFGHIJKLMNOPQRSTUVWXYZ"

  /** The upper end is included; an empty or one-point range always gives 0, not its only point. */
  method RandomInt(min: int, max: int) returns (r: int)
    ensures if max > min then min <= r <= max else r == 0
  {
    if max > min {
      r :| min <= r <= max;
      return;
    }
    return 0;
  }

  method RandomString(count: nat, table: string) returns (s: string)
    ensures |s| == if table == "" then 0 else count
    ensures forall c :: c in s ==> c in table
  {
    if table == "" {
      return "";
    }
    var buffer := new char[count](_ => '\0');
    for i := 0 to count
      invariant forall k :: 0 <= k < i ==> buffer[k] in table
    {
      var index :| 0 <= index < |table|;
      buffer[i] := table[index];
    }
    return buffer[..];
  }
}
