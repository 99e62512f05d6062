/** Small string routines shared by the server and its clients. */
module Text {

  const SPECIAL_CHARS: string := "%\\"
  const COLOR_ESCAPE: char := '%'

  predicate IsSpace(c: char) { c == ' ' || c == '\t' }

  predicate IsSpecial(c: char) { c in SPECIAL_CHARS }

  function NoSpaces(s: string): (r: string) {
    if s == [] then []
    else if IsSpace(s[0]) then NoSpaces(s[1..])
    else [s[0]] + NoSpaces(s[1..])
  }

  method RemoveSpaceCharacters(str: string) returns (ans: string)
    ensures ans == NoSpaces(str)
  {
    ans := [];
    for i := 0 to |str|
      invariant ans + NoSpaces(str[i..]) == NoSpaces(str)
    {
      assert str[i..][1..] == str[i + 1..];
      if str[i] != ' ' && str[i] != '\t' {
        ans := ans + [str[i]];
      }
    }
    assert NoSpaces(str[|str|..]) == [];
  }

  lemma {:induction false} NoSpacesKeepsPlain(s: string)
    requires forall i :: 0 <= i < |s| ==> !IsSpace(s[i])
    ensures NoSpaces(s) == s
  {
    if s != [] {
      NoSpacesKeepsPlain(s[1..]);
      assert s == [s[0]] + s[1..];
    }
  }

  lemma {:induction false} NoSpacesConcat(s: string, t: string)
    ensures NoSpaces(s + t) == NoSpaces(s) + NoSpaces(t)
  {
    if s == [] {
      assert s + t == t;
    } else {
      NoSpacesConcat(s[1..], t);
      assert (s + t)[1..] == s[1..] + t;
    }
  }

  /** Every character that the highlighters interpret gets a backslash in front. */
  function Escape(s: string): string {
    if s == [] then []
    else (if IsSpecial(s[0]) then ['\\', s[0]] else [s[0]]) + Escape(s[1..])
  }

  method EscapeSpecialChars(str: string) returns (res: string)
    ensures res == Escape(str)
  {
    res := "";
    for i := 0 to |str|
      invariant res + Escape(str[i..]) == Escape(str)
    {
      assert str[i..][1..] == str[i + 1..];
      ghost var before := res;
      if str[i] in SPECIAL_CHARS {
        res := res + "\\";
      }
      res := res + [str[i]];
      assert res == before + (if IsSpecial(str[i]) then ['\\', str[i]] else [str[i]]);
    }
    assert Escape(str[|str|..]) == [];
  }

  function ColorThatThing(s: string): string {
    [COLOR_ESCAPE] + s + [COLOR_ESCAPE]
  }
}
