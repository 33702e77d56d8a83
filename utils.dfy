/**
 * `safe_name`: turns a user-given project name into a single folder name.
 * Forbidden characters and blanks become `_`, one leading dot is dropped and a
 * trailing dot becomes `_`. The name "." makes the source index an empty string.
 */
module Utils {
  import opened Wrappers
  import Strings

  /** The exception `safe_name` raises: `name[-1]` on the empty string. */
  datatype NameError = IndexError

  /**
   * The characters of the source's raw literal `[<>:"/\\|?*]`, in order. Being raw, it
   * holds the brackets and two backslashes, and the loop replaces each of them.
   */
  const Forbidden: string := "[<>:\"/\\\\|?*]"

  /** A character `safe_name` turns into `_`. */
  predicate Unsafe(c: char) {
    c in Forbidden || c == ' '
  }

  /** Every unsafe character of `s` replaced by `_`, position by position. */
  function Scrub(s: string): string {
    seq(|s|, k requires 0 <= k < |s| => if Unsafe(s[k]) then '_' else s[k])
  }

  /**
   * What `safe_name` returns: "" becomes "empty", unsafe characters become `_`, one
   * leading dot is dropped, then a trailing dot becomes `_`; an empty string at that
   * point is the IndexError of `name[-1]`.
   */
  function SafeNameSpec(name: string): Result<string, NameError>
  {
    var s := Scrub(if name == "" then "empty" else name);
    var t := if s[0] == '.' then s[1..] else s;
    if t == [] then Failure(IndexError)
    else if t[|t| - 1] == '.' then Success(t[..|t| - 1] + "_")
    else Success(t)
  }

  /** A name `safe_name` leaves unchanged: non-empty, no unsafe character, no dot at either end. */
  predicate IsSafe(name: string) {
    && name != ""
    && (forall k :: 0 <= k < |name| ==> !Unsafe(name[k]))
    && name[0] != '.'
    && name[|name| - 1] != '.'
  }

  /**
   * `safe_name` as the source runs it: the name is rebound by one `replace` per forbidden
   * character, then by the blank replacement, then by the two dot rules.
   */
  method SafeName(name: string) returns (r: Result<string, NameError>)
    ensures r == SafeNameSpec(name)
  {
    var n := name;
    if n == "" {
      n := "empty";
    }
    ghost var n0 := n;
    for i := 0 to |Forbidden|
      invariant |n| == |n0|
      invariant forall k :: 0 <= k < |n| ==> n[k] == if n0[k] in Forbidden[..i] then '_' else n0[k]
    {
      Strings.ReplaceChar(n, Forbidden[i], '_');
      n := Strings.Replace(n, [Forbidden[i]], "_");
      assert forall c :: c in Forbidden[..i + 1] <==> c in Forbidden[..i] || c == Forbidden[i] by {
        assert Forbidden[..i + 1] == Forbidden[..i] + [Forbidden[i]];
      }
    }
    Strings.ReplaceChar(n, ' ', '_');
    n := Strings.Replace(n, " ", "_");
    assert Forbidden[..|Forbidden|] == Forbidden;
    assert n == Scrub(n0);
    if n[0] == '.' {
      n := n[1..];
    }
    if n == [] {
      return Failure(IndexError);
    }
    if n[|n| - 1] == '.' {
      n := n[..|n| - 1] + "_";
    }
    r := Success(n);
  }

  /** Only the name "." makes `safe_name` fail. */
  lemma SafeNameFailsOnlyOnDot(name: string)
    ensures SafeNameSpec(name).Failure? <==> name == "."
  {
    if name == "." {
      assert Scrub(name) == ".";
    }
  }

  /**
   * A result of `safe_name` is non-empty, holds no blank and no forbidden character, and
   * does not end with a dot.
   */
  lemma SafeNameIsClean(name: string)
    requires SafeNameSpec(name).Success?
    ensures var out := SafeNameSpec(name).value;
      && out != ""
      && (forall k :: 0 <= k < |out| ==> !Unsafe(out[k]))
      && out[|out| - 1] != '.'
  {
    var s := Scrub(if name == "" then "empty" else name);
    var out := SafeNameSpec(name).value;
    var t := if s[0] == '.' then s[1..] else s;
    assert forall k :: 0 <= k < |t| ==> !Unsafe(t[k]);
    if t[|t| - 1] == '.' {
      assert out == t[..|t| - 1] + "_";
      assert !Unsafe('_');
    }
  }

  /**
   * Position by position: every character of a non-empty name is kept or turned into `_`
   * in place, except a first dot, which is dropped, and a last dot, which becomes `_`.
   */
  lemma SafeNameShape(name: string)
    requires name != "" && name != "."
    ensures var out := SafeNameSpec(name);
      var d := if name[0] == '.' then 1 else 0;
      && out.Success?
      && |out.value| == |name| - d
      && (forall k :: 0 <= k < |out.value| - 1 ==>
            out.value[k] == if Unsafe(name[k + d]) then '_' else name[k + d])
      && out.value[|out.value| - 1] ==
           if Unsafe(name[|name| - 1]) || name[|name| - 1] == '.' then '_' else name[|name| - 1]
  {
    SafeNameFailsOnlyOnDot(name);
  }

  /** A name that is already safe comes back unchanged. */
  lemma SafeNameKeepsSafe(name: string)
    requires IsSafe(name)
    ensures SafeNameSpec(name) == Success(name)
  {
    assert Scrub(name) == name;
  }

  /**
   * Sanitising a result again changes nothing, unless the result starts with a dot (only
   * one leading dot is dropped, so "..x" gives ".x" and then "x").
   */
  lemma SafeNameStable(name: string)
    requires SafeNameSpec(name).Success?
    requires SafeNameSpec(name).value[0] != '.'
    ensures SafeNameSpec(SafeNameSpec(name).value) == SafeNameSpec(name)
  {
    SafeNameIsClean(name);
    SafeNameKeepsSafe(SafeNameSpec(name).value);
  }

  /** A test case of the source: names with nothing to replace come back as they are. */
  lemma SafeNameExampleValid()
    ensures SafeNameSpec("ValidName") == Success("ValidName")
    ensures SafeNameSpec("valid_name") == Success("valid_name")
  {
    var s := "ValidName";
    assert forall k | 0 <= k < |s| :: Scrub(s)[k] == s[k];
    assert Scrub(s) == s;
    s := "valid_name";
    assert forall k | 0 <= k < |s| :: Scrub(s)[k] == s[k];
    assert Scrub(s) == s;
  }

  /** A test case of the source: the empty name becomes "empty". */
  lemma SafeNameExampleEmpty()
    ensures SafeNameSpec("") == Success("empty")
  {
    var s := "empty";
    assert forall k | 0 <= k < |s| :: Scrub(s)[k] == s[k];
    assert Scrub(s) == s;
  }

  /** A test case of the source: a blank becomes `_`. */
  lemma SafeNameExampleBlank()
    ensures SafeNameSpec("valid name") == Success("valid_name")
  {
    var s := "valid name";
    assert forall k | 0 <= k < |s| :: Scrub(s)[k] == if s[k] == ' ' then '_' else s[k];
    assert Scrub(s) == "valid_name";
  }

  /** A test case of the source: angle brackets become `_`. */
  lemma SafeNameExampleAngles()
    ensures SafeNameSpec("valid<name>") == Success("valid_name_")
  {
    var s := "valid<name>";
    assert forall k | 0 <= k < |s| :: Scrub(s)[k] == if s[k] == '<' || s[k] == '>' then '_' else s[k];
    assert Scrub(s) == "valid_name_";
  }

  /** A test case of the source: a colon becomes `_`. */
  lemma SafeNameExampleColon()
    ensures SafeNameSpec("valid:name") == Success("valid_name")
  {
    var s := "valid:name";
    assert forall k | 0 <= k < |s| :: Scrub(s)[k] == if s[k] == ':' then '_' else s[k];
    assert Scrub(s) == "valid_name";
  }

  /** Square brackets are in the raw literal too, so they become `_` as well. */
  lemma SafeNameExampleBrackets()
    ensures SafeNameSpec("[a]") == Success("_a_")
  {
    var s := "[a]";
    assert Unsafe('[') && Unsafe(']');
    assert forall k | 0 <= k < |s| :: Scrub(s)[k] == if s[k] == '[' || s[k] == ']' then '_' else s[k];
    assert Scrub(s) == "_a_";
  }

  /** A test case of the source: a trailing dot becomes `_`. */
  lemma SafeNameExampleTrailingDot()
    ensures SafeNameSpec("validname.") == Success("validname_")
  {
    var s := "validname.";
    assert forall k | 0 <= k < |s| :: Scrub(s)[k] == s[k];
    assert Scrub(s) == s;
    assert s[..9] + "_" == "validname_";
  }

  /** A test case of the source: a leading dot is dropped, but only one of them. */
  lemma SafeNameExampleLeadingDot()
    ensures SafeNameSpec(".validname") == Success("validname")
    ensures SafeNameSpec("..x") == Success(".x")
  {
    var s := ".validname";
    assert forall k | 0 <= k < |s| :: Scrub(s)[k] == s[k];
    assert Scrub(s) == s;
    assert s[1..] == "validname";
    s := "..x";
    assert forall k | 0 <= k < |s| :: Scrub(s)[k] == s[k];
    assert Scrub(s) == s;
    assert s[1..] == ".x";
  }
}
