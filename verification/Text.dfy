/** Text as the operations clean it before they store or compare it. */
module Text {
  import opened Wrappers

  predicate IsSpace(c: char)
  {
    c in " \t\n\r\U{0B}\U{0C}\U{1C}\U{1D}\U{1E}\U{1F}\U{85}\U{A0}"
  }

  function StripLeft(text: string): string
  {
    if text != "" && IsSpace(text[0]) then StripLeft(text[1..]) else text
  }

  function StripRight(text: string): string
  {
    if text != "" && IsSpace(text[|text| - 1]) then StripRight(text[..|text| - 1]) else text
  }

  /** Surrounding white space removed, then cut to a number of characters. */
  function Clean(text: string, limit: nat): (r: string)
    ensures |r| <= limit
  {
    var stripped := StripRight(StripLeft(text));
    if |stripped| <= limit then stripped else stripped[..limit]
  }

  /** An identifier as the source tests it: present and not empty. */
  function Given(id: Option<string>): Option<string>
  {
    if id == Some("") then None else id
  }

  function Decimal(n: nat): string
  {
    if n < 10 then ["0123456789"[n]] else Decimal(n / 10) + ["0123456789"[n % 10]]
  }

  predicate IsDigit(c: char)
  {
    '0' <= c <= '9'
  }

  lemma DigitsDiffer(m: nat, n: nat)
    requires m < 10 && n < 10 && "0123456789"[m] == "0123456789"[n]
    ensures m == n
  {
    var digits := "0123456789";
    assert digits[m] == '0' + m as char && digits[n] == '0' + n as char;
  }

  lemma {:induction false} DecimalDigits(n: nat)
    ensures Decimal(n) != "" && forall i :: 0 <= i < |Decimal(n)| ==> IsDigit(Decimal(n)[i])
  {
    if n >= 10 {
      DecimalDigits(n / 10);
    }
  }

  /** Different numbers are written differently. */
  lemma {:induction false} DecimalsDiffer(m: nat, n: nat)
    requires Decimal(m) == Decimal(n)
    ensures m == n
  {
    DecimalDigits(m / 10);
    DecimalDigits(n / 10);
    var last := |Decimal(m)| - 1;
    assert Decimal(m)[last] == "0123456789"[m % 10] && Decimal(n)[last] == "0123456789"[n % 10];
    DigitsDiffer(m % 10, n % 10);
    if m >= 10 && n >= 10 {
      assert Decimal(m)[..last] == Decimal(m / 10) && Decimal(n)[..last] == Decimal(n / 10);
      DecimalsDiffer(m / 10, n / 10);
    }
  }

  /** Text without space at either end, and short enough, is clean already. */
  lemma AlreadyClean(text: string, limit: nat)
    requires text != "" && !IsSpace(text[0]) && !IsSpace(text[|text| - 1]) && |text| <= limit
    ensures Clean(text, limit) == text
  {
  }

  // ---- what cleaning leaves ---------------------------------------------------------------------

  ghost predicate Blank(text: string)
  {
    forall i :: 0 <= i < |text| ==> IsSpace(text[i])
  }

  /** Text that neither starts nor ends with white space. */
  predicate Trimmed(text: string)
  {
    text != "" ==> !IsSpace(text[0]) && !IsSpace(text[|text| - 1])
  }

  lemma {:induction false} LeftIsBlank(text: string) returns (n: nat)
    ensures n <= |text| && Blank(text[..n]) && StripLeft(text) == text[n..]
    ensures n < |text| ==> !IsSpace(text[n])
  {
    if text != "" && IsSpace(text[0]) {
      var m := LeftIsBlank(text[1..]);
      n := m + 1;
      assert text[..n] == [text[0]] + text[1..][..m] && text[n..] == text[1..][m..];
    } else {
      n := 0;
    }
  }

  lemma {:induction false} RightIsBlank(text: string) returns (n: nat)
    ensures n <= |text| && Blank(text[n..]) && StripRight(text) == text[..n]
    ensures n > 0 ==> !IsSpace(text[n - 1])
  {
    if text != "" && IsSpace(text[|text| - 1]) {
      var shorter := text[..|text| - 1];
      n := RightIsBlank(shorter);
      assert text[n..] == shorter[n..] + [text[|text| - 1]] && text[..n] == shorter[..n];
    } else {
      n := |text|;
    }
  }

  /** Cleaning cuts white space from both ends, all of it and nothing else, and then what is beyond the limit. */
  lemma CleanIsCore(text: string, limit: nat) returns (from: nat, to: nat)
    ensures from <= to <= |text| && Blank(text[..from]) && Blank(text[to..]) && Trimmed(text[from..to])
    ensures Clean(text, limit) == if to - from <= limit then text[from..to] else text[from..from + limit]
  {
    from := LeftIsBlank(text);
    var rest := text[from..];
    var n := RightIsBlank(rest);
    to := from + n;
    assert rest[..n] == text[from..to] && rest[n..] == text[to..];
    if to - from > limit {
      assert rest[..n][..limit] == text[from..from + limit];
    }
  }

  /** Nothing is left exactly of text that is all white space, unless there is no room at all. */
  lemma CleanIsEmptyExactly(text: string, limit: nat)
    requires limit > 0
    ensures Clean(text, limit) == "" <==> Blank(text)
  {
    var from, to := CleanIsCore(text, limit);
    if from == to {
      assert text == text[..from] + text[to..];
    } else {
      assert !IsSpace(text[from..to][0]) && text[from..to][0] == text[from];
    }
  }
}
