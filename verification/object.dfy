/** Runtime values: 64-bit integers and booleans, each with a type tag and a
    text rendering. */
module Objects {
  import opened Wrappers
  import opened Decimal

  datatype ObjectType = Integer64 | Boolean

  datatype Object = Integer(intValue: i64) | Boolean(boolValue: bool) {

    /** The type tag. */
    function GetType(): (t: ObjectType)
      ensures t == Integer64 <==> Integer?
      ensures t == ObjectType.Boolean <==> Boolean?
    {
      match this
      case Integer(_) => Integer64
      case Boolean(_) => ObjectType.Boolean
    }

    /** `inspect`: the `to_string` of the value. Parsing the text back as the
        value's own type recovers the value, and it never parses as the other type. */
    function Inspect(): (s: string)
      ensures Integer? ==> ParseI64(s) == Some(intValue) && ParseBool(s) == None
      ensures Boolean? ==> ParseBool(s) == Some(boolValue) && ParseI64(s) == None
      ensures Integer? ==> (s[0] == '-' <==> intValue < 0)
      ensures Integer? ==> var d := if intValue < 0 then s[1..] else s;
                d != [] && AllDigits(d) && (|d| > 1 ==> d[0] != '0')
      ensures Boolean? ==> s == (if boolValue then "true" else "false")
    {
      match this
      case Integer(i) =>
        ParseI64OfIntToString(i);
        ParseBoolOfIntToString(i);
        IntToString(i)
      case Boolean(b) =>
        ParseI64OfBoolToString(b);
        BoolToString(b)
    }
  }
}
