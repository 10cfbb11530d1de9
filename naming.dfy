/** How `#[calls]` turns the name of a call type (`balanceOfCall`) into the name of
    the method it generates (`balance_of`): drop a trailing `Call`, then convert
    the rest to snake case. */
module Naming {

  /** The suffix the `sol!` macro gives every call type. */
  const CallSuffix: string := "Call"

  predicate EndsWith(s: string, suffix: string)
  {
    |suffix| <= |s| && s[|s| - |suffix|..] == suffix
  }

  /** The name without a trailing `Call`; a name without that suffix is kept whole. */
  function StripCallSuffix(typeName: string): (r: string)
    ensures EndsWith(typeName, CallSuffix) ==> r + CallSuffix == typeName
    ensures !EndsWith(typeName, CallSuffix) ==> r == typeName
  {
    if EndsWith(typeName, CallSuffix) then typeName[..|typeName| - |CallSuffix|] else typeName
  }

  /** Stripping undoes appending the suffix. */
  lemma StripAppendedSuffix(base: string)
    ensures StripCallSuffix(base + CallSuffix) == base
  {
    var n := base + CallSuffix;
    assert n[|n| - |CallSuffix|..] == CallSuffix;
    assert n[..|n| - |CallSuffix|] == base;
  }

  /** The name `Call` alone leaves nothing to convert. */
  lemma StripCallAlone()
    ensures StripCallSuffix("Call") == ""
  {
    StripAppendedSuffix("");
  }

  // ----- Snake case -----
  // The conversion used here: an ASCII upper-case letter that follows an ASCII
  // lower-case letter or a digit starts a new word and gets a `_` before it; then
  // every ASCII upper-case letter is lowered. Every other character is kept.

  predicate IsUpper(c: char) { 'A' <= c <= 'Z' }

  predicate IsLower(c: char) { 'a' <= c <= 'z' }

  predicate IsDigit(c: char) { '0' <= c <= '9' }

  function ToLower(c: char): (d: char)
    ensures !IsUpper(d)
    ensures IsUpper(c) ==> IsLower(d)
    ensures !IsUpper(c) ==> d == c
  {
    if IsUpper(c) then (c as int + ('a' as int - 'A' as int)) as char else c
  }

  /** Snake case of `s`, given whether the character before `s` was a lower-case
      letter or a digit. */
  function SnakeFrom(s: string, afterLowerOrDigit: bool): string
  {
    if s == [] then []
    else
      var c := s[0];
      (if afterLowerOrDigit && IsUpper(c) then "_" else "")
        + [ToLower(c)]
        + SnakeFrom(s[1..], IsLower(c) || IsDigit(c))
  }

  function ToSnakeCase(s: string): string
  {
    SnakeFrom(s, false)
  }

  predicate NoUpper(s: string)
  {
    forall i :: 0 <= i < |s| ==> !IsUpper(s[i])
  }

  /** Every character lowered, nothing inserted. */
  function LowerAll(s: string): (r: string)
    ensures |r| == |s|
  {
    if s == [] then [] else [ToLower(s[0])] + LowerAll(s[1..])
  }

  /** `s` with its underscores removed. */
  function WithoutUnderscores(s: string): string
  {
    if s == [] then []
    else (if s[0] == '_' then [] else [s[0]]) + WithoutUnderscores(s[1..])
  }

  lemma {:induction false} WithoutUnderscoresAppend(a: string, b: string)
    ensures WithoutUnderscores(a + b) == WithoutUnderscores(a) + WithoutUnderscores(b)
  {
    if a != [] {
      assert (a + b)[1..] == a[1..] + b;
      WithoutUnderscoresAppend(a[1..], b);
    } else {
      assert a + b == b;
    }
  }

  lemma {:induction false} SnakeFromNoUpper(s: string, b: bool)
    ensures NoUpper(SnakeFrom(s, b))
  {
    if s != [] {
      var c := s[0];
      SnakeFromNoUpper(s[1..], IsLower(c) || IsDigit(c));
    }
  }

  /** The converted name holds no upper-case letter. */
  lemma SnakeCaseHasNoUpper(s: string)
    ensures NoUpper(ToSnakeCase(s))
  {
    SnakeFromNoUpper(s, false);
  }

  lemma {:induction false} SnakeFromOfNoUpper(s: string, b: bool)
    requires NoUpper(s)
    ensures SnakeFrom(s, b) == s
  {
    if s != [] {
      var c := s[0];
      assert !IsUpper(c);
      SnakeFromOfNoUpper(s[1..], IsLower(c) || IsDigit(c));
    }
  }

  /** A name with no upper-case letter is already in snake case. */
  lemma SnakeCaseOfNoUpper(s: string)
    requires NoUpper(s)
    ensures ToSnakeCase(s) == s
  {
    SnakeFromOfNoUpper(s, false);
  }

  /** Converting twice gives what converting once gives. */
  lemma SnakeCaseIdempotent(s: string)
    ensures ToSnakeCase(ToSnakeCase(s)) == ToSnakeCase(s)
  {
    SnakeCaseHasNoUpper(s);
    SnakeCaseOfNoUpper(ToSnakeCase(s));
  }

  lemma {:induction false} SnakeFromOnlyInsertsUnderscores(s: string, b: bool)
    ensures WithoutUnderscores(SnakeFrom(s, b)) == WithoutUnderscores(LowerAll(s))
  {
    if s != [] {
      var c := s[0];
      var sep: string := if b && IsUpper(c) then "_" else "";
      var rest := SnakeFrom(s[1..], IsLower(c) || IsDigit(c));
      SnakeFromOnlyInsertsUnderscores(s[1..], IsLower(c) || IsDigit(c));
      assert SnakeFrom(s, b) == sep + ([ToLower(c)] + rest);
      calc {
        WithoutUnderscores(SnakeFrom(s, b));
        WithoutUnderscores(sep + ([ToLower(c)] + rest));
        { WithoutUnderscoresAppend(sep, [ToLower(c)] + rest); }
        WithoutUnderscores(sep) + WithoutUnderscores([ToLower(c)] + rest);
        { WithoutUnderscoresAppend([ToLower(c)], rest); }
        WithoutUnderscores([ToLower(c)]) + WithoutUnderscores(rest);
        { WithoutUnderscoresAppend([ToLower(c)], LowerAll(s[1..])); }
        WithoutUnderscores(LowerAll(s));
      }
    }
  }

  /** The conversion only lowers letters and inserts separators: deleting the
      underscores from the result gives the lowered name with its underscores deleted. */
  lemma SnakeCaseOnlyInsertsUnderscores(s: string)
    ensures WithoutUnderscores(ToSnakeCase(s)) == WithoutUnderscores(LowerAll(s))
  {
    SnakeFromOnlyInsertsUnderscores(s, false);
  }

  /** The example the repository exercises. */
  lemma SnakeCaseBalanceOf()
    ensures ToSnakeCase("balanceOf") == "balance_of"
  {
    assert "f"[0] == 'f' && "f"[1..] == "";
    assert SnakeFrom("f", false) == "f";
    assert "Of"[0] == 'O' && "Of"[1..] == "f";
    assert SnakeFrom("Of", true) == "_of";
    assert "eOf"[0] == 'e' && "eOf"[1..] == "Of";
    assert SnakeFrom("eOf", true) == "e_of";
    assert "ceOf"[0] == 'c' && "ceOf"[1..] == "eOf";
    assert SnakeFrom("ceOf", true) == "ce_of";
    assert "nceOf"[0] == 'n' && "nceOf"[1..] == "ceOf";
    assert SnakeFrom("nceOf", true) == "nce_of";
    assert "anceOf"[0] == 'a' && "anceOf"[1..] == "nceOf";
    assert SnakeFrom("anceOf", true) == "ance_of";
    assert "lanceOf"[0] == 'l' && "lanceOf"[1..] == "anceOf";
    assert SnakeFrom("lanceOf", true) == "lance_of";
    assert "alanceOf"[0] == 'a' && "alanceOf"[1..] == "lanceOf";
    assert SnakeFrom("alanceOf", true) == "alance_of";
    assert "balanceOf"[0] == 'b' && "balanceOf"[1..] == "alanceOf";
    assert SnakeFrom("balanceOf", false) == "balance_of";
  }

  /** An upper-case run is one word: only its first letter can start a new word. */
  lemma SnakeCaseAcronym()
    ensures ToSnakeCase("getHTML") == "get_html"
  {
    assert "L"[0] == 'L' && "L"[1..] == "";
    assert SnakeFrom("L", false) == "l";
    assert "ML"[0] == 'M' && "ML"[1..] == "L";
    assert SnakeFrom("ML", false) == "ml";
    assert "TML"[0] == 'T' && "TML"[1..] == "ML";
    assert SnakeFrom("TML", false) == "tml";
    assert "HTML"[0] == 'H' && "HTML"[1..] == "TML";
    assert SnakeFrom("HTML", true) == "_html";
    assert "tHTML"[0] == 't' && "tHTML"[1..] == "HTML";
    assert SnakeFrom("tHTML", true) == "t_html";
    assert "etHTML"[0] == 'e' && "etHTML"[1..] == "tHTML";
    assert SnakeFrom("etHTML", true) == "et_html";
    assert "getHTML"[0] == 'g' && "getHTML"[1..] == "etHTML";
    assert SnakeFrom("getHTML", false) == "get_html";
  }

  // ----- Method names -----

  /** The name of the method generated for the call type `typeName`: the suffix
      is stripped first, and the snake-case conversion applies to what remains. */
  function MethodName(typeName: string): string
  {
    ToSnakeCase(StripCallSuffix(typeName))
  }

  /** For a call type named `<base>Call` the method is `<base>` in snake case. */
  lemma MethodNameOfCallType(base: string)
    ensures MethodName(base + CallSuffix) == ToSnakeCase(base)
  {
    StripAppendedSuffix(base);
  }

  /** Method names never contain an upper-case letter. */
  lemma MethodNameHasNoUpper(typeName: string)
    ensures NoUpper(MethodName(typeName))
  {
    SnakeCaseHasNoUpper(StripCallSuffix(typeName));
  }

  /** The call types of the ERC-20 example, and the degenerate name `Call`. */
  lemma MethodNameExamples()
    ensures MethodName("balanceOfCall") == "balance_of"
    ensures MethodName("transferCall") == "transfer"
    ensures MethodName("allowanceCall") == "allowance"
    ensures MethodName("Call") == ""
  {
    assert "balanceOfCall" == "balanceOf" + CallSuffix;
    MethodNameOfCallType("balanceOf");
    SnakeCaseBalanceOf();
    assert "transferCall" == "transfer" + CallSuffix;
    MethodNameOfCallType("transfer");
    SnakeCaseOfNoUpper("transfer");
    assert "allowanceCall" == "allowance" + CallSuffix;
    MethodNameOfCallType("allowance");
    SnakeCaseOfNoUpper("allowance");
    StripCallAlone();
  }
}
