/**
 * The checks `add_customer` runs on the form before it admits a record, and the
 * column check of the two imports.
 */
module Validation {
  import opened Outcomes
  import opened Tables

  /** Python's `str.isspace()`, the characters `str.strip()` removes. */
  predicate IsSpace(c: char) {
    || c == ' ' || c == '\t' || c == '\n' || c == '\r' || c == '\U{000B}' || c == '\U{000C}'
    || ('\U{001C}' <= c <= '\U{001F}')
    || c == '\U{0085}' || c == '\U{00A0}' || c == '\U{1680}'
    || ('\U{2000}' <= c <= '\U{200A}')
    || c == '\U{2028}' || c == '\U{2029}' || c == '\U{202F}' || c == '\U{205F}' || c == '\U{3000}'
  }

  /** `s.lstrip()`: `s` without its leading whitespace. */
  function TrimLeft(s: string): (r: string)
    ensures |r| <= |s|
  {
    if s != [] && IsSpace(s[0]) then TrimLeft(s[1..]) else s
  }

  /** `s.rstrip()`: `s` without its trailing whitespace. */
  function TrimRight(s: string): (r: string)
    ensures |r| <= |s|
  {
    if s != [] && IsSpace(s[|s| - 1]) then TrimRight(s[..|s| - 1]) else s
  }

  /** What `lstrip` removes is whitespace, and what it leaves starts with something else. */
  lemma {:induction false} TrimLeftSpec(s: string)
    ensures var r := TrimLeft(s);
      && r == s[|s| - |r|..]
      && (forall i :: 0 <= i < |s| - |r| ==> IsSpace(s[i]))
      && (r == [] || !IsSpace(r[0]))
    decreases |s|
  {
    if s != [] && IsSpace(s[0]) {
      TrimLeftSpec(s[1..]);
      var r := TrimLeft(s);
      forall i | 1 <= i < |s| - |r| ensures IsSpace(s[i]) {
        assert s[i] == s[1..][i - 1];
      }
    }
  }

  /** What `rstrip` removes is whitespace, and what it leaves ends with something else. */
  lemma {:induction false} TrimRightSpec(s: string)
    ensures var r := TrimRight(s);
      && r == s[..|r|]
      && (forall i :: |r| <= i < |s| ==> IsSpace(s[i]))
      && (r == [] || !IsSpace(r[|r| - 1]))
    decreases |s|
  {
    if s != [] && IsSpace(s[|s| - 1]) {
      TrimRightSpec(s[..|s| - 1]);
      var r := TrimRight(s);
      forall i | |r| <= i < |s| - 1 ensures IsSpace(s[i]) {
        assert s[i] == s[..|s| - 1][i];
      }
    }
  }

  /** `s.strip()`. */
  function Strip(s: string): string {
    TrimRight(TrimLeft(s))
  }

  /** `not s.strip()`: the text is empty once whitespace is stripped. */
  predicate IsBlank(s: string) {
    Strip(s) == []
  }

  /** Stripping leaves nothing exactly when every character is whitespace. */
  lemma BlankIffAllSpace(s: string)
    ensures IsBlank(s) <==> forall i :: 0 <= i < |s| ==> IsSpace(s[i])
  {
    var l := TrimLeft(s);
    TrimLeftSpec(s);
    TrimRightSpec(l);
    if l != [] {
      assert !IsSpace(l[0]);
      assert TrimRight(l) != [];
      assert !IsSpace(s[|s| - |l|]);
    }
  }

  // ---------------------------------------------------------------------------
  // Email shape: `re.match(r"[^@]+@[^@]+\.[^@]+", email)`

  predicate NoAt(s: string) {
    forall i :: 0 <= i < |s| ==> s[i] != '@'
  }

  /** The pattern matches `s[..end]` with its '@' at `at` and its '.' at `dot`. */
  predicate MatchAt(s: string, at: int, dot: int, end: int)
    requires 0 < at && at + 1 < dot && dot + 1 < end <= |s|
  {
    && s[at] == '@' && s[dot] == '.'
    && NoAt(s[..at]) && NoAt(s[at + 1..dot]) && NoAt(s[dot + 1..end])
  }

  /**
   * `re.match` anchors the pattern at the start only: `s` passes when some prefix
   * of it is a non-empty run without '@', an '@', a non-empty run without '@',
   * a '.', and a non-empty run without '@'. Anything may follow that prefix.
   */
  ghost predicate EmailPatternMatchesPrefix(s: string) {
    exists at, dot, end :: 0 < at && at + 1 < dot && dot + 1 < end <= |s| && MatchAt(s, at, dot, end)
  }

  /** Position of the first '@' at or after `from`, or `|s|` when there is none. */
  function FirstAt(s: string, from: nat): (i: nat)
    requires from <= |s|
    ensures from <= i <= |s|
    ensures i < |s| ==> s[i] == '@'
    ensures forall j :: from <= j < i ==> s[j] != '@'
    decreases |s| - from
  {
    if from == |s| || s[from] == '@' then from else FirstAt(s, from + 1)
  }

  /**
   * The email check as one scan: the first '@' is not the first character, and
   * between it and the next '@' (or the end) there is a '.' with at least one
   * character on each side.
   */
  predicate EmailShapeOk(s: string) {
    var at := FirstAt(s, 0);
    && 0 < at < |s|
    && var stop := FirstAt(s, at + 1);
       exists dot | at + 1 < dot < stop - 1 :: s[dot] == '.'
  }

  /** The scan accepts exactly the strings the regular expression matches at the start. */
  lemma EmailShapeOkIff(s: string)
    ensures EmailShapeOk(s) <==> EmailPatternMatchesPrefix(s)
  {
    if EmailShapeOk(s) {
      var at := FirstAt(s, 0);
      var stop := FirstAt(s, at + 1);
      var dot :| at + 1 < dot < stop - 1 && s[dot] == '.';
      assert MatchAt(s, at, dot, dot + 2);
    }
    if EmailPatternMatchesPrefix(s) {
      var at, dot, end :| 0 < at && at + 1 < dot && dot + 1 < end <= |s| && MatchAt(s, at, dot, end);
      assert forall j :: 0 <= j < at ==> s[j] != '@' by {
        forall j | 0 <= j < at ensures s[j] != '@' {
          assert s[..at][j] == s[j];
        }
      }
      assert FirstAt(s, 0) == at;
      assert forall j :: at + 1 <= j < end ==> s[j] != '@' by {
        forall j | at + 1 <= j < end ensures s[j] != '@' {
          if j < dot {
            assert s[at + 1..dot][j - at - 1] == s[j];
          } else if j > dot {
            assert s[dot + 1..end][j - dot - 1] == s[j];
          }
        }
      }
      var stop := FirstAt(s, at + 1);
      assert end <= stop;
      assert at + 1 < dot < stop - 1 && s[dot] == '.';
    }
  }

  /** Accepted: a plain address, and two that show the match is anchored at the start only. */
  lemma EmailAccepted()
    ensures EmailPatternMatchesPrefix("a@b.com")
    ensures EmailPatternMatchesPrefix("a@b.c@@")
    ensures EmailPatternMatchesPrefix(" john@example.com trailing")
  {
    assert MatchAt("a@b.com", 1, 3, 5);
    assert MatchAt("a@b.c@@", 1, 3, 5);
    assert MatchAt(" john@example.com trailing", 5, 13, 15);
  }

  /** Rejected: no '@', nothing after the '@' but a name without a dot, and nothing before the '@'. */
  lemma EmailRejected()
    ensures !EmailPatternMatchesPrefix("abc")
    ensures !EmailPatternMatchesPrefix("a@b")
    ensures !EmailPatternMatchesPrefix("@b.com")
  {
    assert FirstAt("abc", 0) == 3;
    EmailShapeOkIff("abc");
    assert FirstAt("a@b", 0) == 1 && FirstAt("a@b", 2) == 3;
    EmailShapeOkIff("a@b");
    assert FirstAt("@b.com", 0) == 0;
    EmailShapeOkIff("@b.com");
  }

  // ---------------------------------------------------------------------------
  // Required fields: the first one whose text strips to nothing is reported.

  /** The field is on the form and its text is not blank. */
  predicate Passes(form: map<string, string>, field: string) {
    field in form && !IsBlank(form[field])
  }

  /**
   * The failure for a field that does not pass: a field missing from the form
   * raises (the generic error path); a blank one is reported by name.
   */
  function FailureFor(form: map<string, string>, field: string): Failure {
    if field !in form then FormError else MissingField(field)
  }

  /** Where the check of `required`, in order, stops: the first field that fails, or the end. */
  function FirstFailing(form: map<string, string>, required: seq<string>): (i: nat)
    ensures i <= |required|
    ensures forall j :: 0 <= j < i ==> Passes(form, required[j])
    ensures i < |required| ==> !Passes(form, required[i])
  {
    if required == [] || !Passes(form, required[0]) then 0
    else
      var i := FirstFailing(form, required[1..]);
      assert forall j :: 0 <= j < 1 + i ==> Passes(form, required[j]) by {
        forall j | 1 <= j < 1 + i ensures Passes(form, required[j]) {
          assert required[j] == required[1..][j - 1];
        }
      }
      assert 1 + i < |required| ==> required[1 + i] == required[1..][i];
      1 + i
  }

  /** The outcome of checking `required` in order and stopping at the first field that fails. */
  function FirstRequiredFailure(form: map<string, string>, required: seq<string>): (r: Option<Failure>)
    ensures r == None <==> forall i :: 0 <= i < |required| ==> Passes(form, required[i])
    ensures r != None ==> exists i :: 0 <= i < |required| && !Passes(form, required[i])
                            && (forall j :: 0 <= j < i ==> Passes(form, required[j]))
                            && r == Some(FailureFor(form, required[i]))
  {
    var i := FirstFailing(form, required);
    if i == |required| then None else Some(FailureFor(form, required[i]))
  }

  /** The validation loop of `add_customer`, with its early return. */
  method CheckRequired(form: map<string, string>, required: seq<string>) returns (r: Option<Failure>)
    ensures r == FirstRequiredFailure(form, required)
  {
    var i := 0;
    while i < |required|
      invariant 0 <= i <= |required|
      invariant forall k :: 0 <= k < i ==> Passes(form, required[k])
    {
      var field := required[i];
      if field !in form {
        return Some(FormError);
      }
      if IsBlank(form[field]) {
        return Some(MissingField(field));
      }
      i := i + 1;
    }
    return None;
  }

  // ---------------------------------------------------------------------------
  // Import column check

  /** `[col for col in required if col not in header]`. */
  function AbsentColumns(required: seq<string>, header: seq<string>): (missing: seq<string>)
    ensures |missing| <= |required|
    ensures forall c :: c in missing <==> c in required && c !in header
  {
    if required == [] then []
    else (if required[0] in header then [] else [required[0]]) + AbsentColumns(required[1..], header)
  }

  /**
   * The check treats each required column on its own and reports in required
   * order: checking a list in two parts gives the two reports one after the other.
   */
  lemma {:induction false} AbsentColumnsAppend(a: seq<string>, b: seq<string>, header: seq<string>)
    ensures AbsentColumns(a + b, header) == AbsentColumns(a, header) + AbsentColumns(b, header)
    decreases |a|
  {
    if a == [] {
      assert a + b == b;
    } else {
      assert (a + b)[0] == a[0] && (a + b)[1..] == a[1..] + b;
      AbsentColumnsAppend(a[1..], b, header);
    }
  }

  /** The scenario of a customer file without an email column. */
  lemma MissingEmailColumn()
    ensures AbsentColumns(["name", "email", "phone"], ["name", "phone", "city"]) == ["email"]
  {
  }
}
