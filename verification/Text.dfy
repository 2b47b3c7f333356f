/** White space, trimming and splitting, as Go's strings package does them. */
module Text {

  /** unicode.IsSpace */
  predicate IsSpace(c: char) {
    var u := c as int;
    || 9 <= u <= 13 || u == 0x20 || u == 0x85 || u == 0xA0 || u == 0x1680 || 0x2000 <= u <= 0x200A
    || u == 0x2028 || u == 0x2029 || u == 0x202F || u == 0x205F || u == 0x3000
  }

  /** Blank, tab and the line ends are white space, with U+0085 and U+00A0; no other Latin-1 character is. */
  lemma {:induction false} LatinSpaces(c: char)
    requires c as int < 256
    ensures IsSpace(c) <==> c in {' ', '\t', '\n', '\r', 11 as char, 12 as char, 0x85 as char, 0xA0 as char}
  {
    var u := c as int;
    assert c == u as char;
  }

  predicate Spaces(s: string) {
    forall i :: 0 <= i < |s| ==> IsSpace(s[i])
  }

  predicate NoSpaces(s: string) {
    forall i :: 0 <= i < |s| ==> !IsSpace(s[i])
  }

  /** No white space at either end. */
  predicate Trimmed(s: string) {
    s == "" || (!IsSpace(s[0]) && !IsSpace(s[|s| - 1]))
  }

  function TrimLeft(s: string): string {
    if s != "" && IsSpace(s[0]) then TrimLeft(s[1..]) else s
  }

  function TrimRight(s: string): string {
    if s != "" && IsSpace(s[|s| - 1]) then TrimRight(s[..|s| - 1]) else s
  }

  function Trim(s: string): string {
    TrimRight(TrimLeft(s))
  }

  lemma {:induction false} TrimLeftTakes(s: string) returns (lead: string)
    ensures s == lead + TrimLeft(s) && Spaces(lead)
    ensures TrimLeft(s) != "" ==> !IsSpace(TrimLeft(s)[0])
  {
    if s != "" && IsSpace(s[0]) {
      var rest := TrimLeftTakes(s[1..]);
      lead := [s[0]] + rest;
      assert s == [s[0]] + (rest + TrimLeft(s));
    } else {
      lead := "";
    }
  }

  lemma {:induction false} TrimRightTakes(s: string) returns (trail: string)
    ensures s == TrimRight(s) + trail && Spaces(trail)
    ensures TrimRight(s) != "" ==> !IsSpace(TrimRight(s)[|TrimRight(s)| - 1])
  {
    if s != "" && IsSpace(s[|s| - 1]) {
      var rest := TrimRightTakes(s[..|s| - 1]);
      trail := rest + [s[|s| - 1]];
      assert s == (TrimRight(s) + rest) + [s[|s| - 1]];
    } else {
      trail := "";
    }
  }

  /** Trimming takes white space off both ends, all of it and nothing else. */
  lemma {:induction false} TrimTakesTheEnds(s: string) returns (lead: string, trail: string)
    ensures s == lead + Trim(s) + trail && Spaces(lead) && Spaces(trail) && Trimmed(Trim(s))
  {
    lead := TrimLeftTakes(s);
    trail := TrimRightTakes(TrimLeft(s));
  }

  lemma {:induction false} TrimBlank(s: string)
    ensures Trim(s) == "" <==> Spaces(s)
  {
    var lead, trail := TrimTakesTheEnds(s);
    if Trim(s) != "" {
      assert s[|lead|] == Trim(s)[0];
    }
  }

  function Split(s: string, sep: char): (parts: seq<string>)
    ensures parts != []
  {
    if s == "" then [""]
    else
      var rest := Split(s[1..], sep);
      if s[0] == sep then [""] + rest else [[s[0]] + rest[0]] + rest[1..]
  }

  function Join(parts: seq<string>, sep: char): string
    requires parts != []
  {
    if |parts| == 1 then parts[0] else parts[0] + [sep] + Join(parts[1..], sep)
  }

  predicate Free(parts: seq<string>, sep: char) {
    forall i :: 0 <= i < |parts| ==> sep !in parts[i]
  }

  /** Splitting cuts at every separator and drops nothing else. */
  lemma {:induction false} SplitCuts(s: string, sep: char)
    ensures Join(Split(s, sep), sep) == s && Free(Split(s, sep), sep)
  {
    if s != "" {
      var rest := Split(s[1..], sep);
      SplitCuts(s[1..], sep);
      if s[0] == sep {
        assert ([""] + rest)[1..] == rest;
      } else {
        var whole := [[s[0]] + rest[0]] + rest[1..];
        assert whole[1..] == rest[1..];
        if |rest| > 1 {
          assert [s[0]] + (rest[0] + [sep] + Join(rest[1..], sep)) == whole[0] + [sep] + Join(whole[1..], sep);
        }
      }
    }
  }

  lemma {:induction false} SplitPrefix(part: string, s: string, sep: char)
    requires sep !in part
    ensures var rest := Split(s, sep); Split(part + s, sep) == [part + rest[0]] + rest[1..]
  {
    var rest := Split(s, sep);
    if part == "" {
      assert part + s == s && "" + rest[0] == rest[0] && rest == [rest[0]] + rest[1..];
    } else {
      assert (part + s)[1..] == part[1..] + s;
      SplitPrefix(part[1..], s, sep);
      var inner := Split(part[1..] + s, sep);
      assert inner[0] == part[1..] + rest[0] && inner[1..] == rest[1..];
      assert part[0] in part;
      assert [part[0]] + (part[1..] + rest[0]) == part + rest[0];
    }
  }

  /** Splitting a joined list of separator-free parts gives the list back. */
  lemma {:induction false} SplitJoin(parts: seq<string>, sep: char)
    requires parts != [] && Free(parts, sep)
    ensures Split(Join(parts, sep), sep) == parts
  {
    if |parts| == 1 {
      SplitPrefix(parts[0], "", sep);
      assert parts[0] + "" == parts[0] && parts == [parts[0]];
    } else {
      var tail := [sep] + Join(parts[1..], sep);
      SplitJoin(parts[1..], sep);
      assert tail[1..] == Join(parts[1..], sep);
      assert Split(tail, sep) == [""] + parts[1..];
      SplitPrefix(parts[0], tail, sep);
      assert parts[0] + [sep] + Join(parts[1..], sep) == parts[0] + tail;
      assert parts[0] + "" == parts[0] && parts == [parts[0]] + parts[1..];
    }
  }
}
