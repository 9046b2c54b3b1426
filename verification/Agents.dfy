/** Signatures and confidence (crates/guardian-proto/src/model.rs, lines 320-343 and 1306-1387). */
module Agents {
  import opened Prelude

  datatype Confidence = Unknown | Possible | High | Confirmed {
    function Rank(): nat {
      match this
      case Unknown => 0
      case Possible => 1
      case High => 2
      case Confirmed => 3
    }
  }

  datatype SignatureConfidence = Confirmed | High | Possible {
    function Cap(): Confidence {
      match this
      case Confirmed => Confidence.Confirmed
      case High => Confidence.High
      case Possible => Confidence.Possible
    }
  }

  /** The levels are strictly ordered, and a signature's declaration is the level of its own name. */
  lemma ConfidenceIsOrdered()
    ensures Confidence.Unknown.Rank() < Confidence.Possible.Rank() < Confidence.High.Rank() < Confidence.Confirmed.Rank()
    ensures SignatureConfidence.Possible.Cap() == Confidence.Possible && SignatureConfidence.High.Cap() == Confidence.High
    ensures SignatureConfidence.Confirmed.Cap() == Confidence.Confirmed
  {
  }

  datatype RuleField = ProcessName | ImagePath | CommandLine | ParentName | ParentPath | ChildName | PackagePath

  datatype Rule = Rule(field: RuleField, pattern: string, weight: int, detail: string)

  datatype SignatureRules = SignatureRules(anyOf: seq<Rule>, allOf: seq<Rule>, noneOf: seq<Rule>)

  datatype AdapterKind = ClaudeCode | Codex | Grok | NoAdapter

  datatype AgentSignature = AgentSignature(
    id: string,
    displayName: string,
    userDefined: bool,
    confidence: SignatureConfidence,
    rules: SignatureRules,
    adapter: Option<AdapterKind>,
    notes: string)

  function SignatureId(sig: AgentSignature): string {
    sig.id
  }

  /** Signatures with one id are one signature. */
  predicate UniqueIds(sigs: seq<AgentSignature>) {
    forall i, j :: 0 <= i < |sigs| && 0 <= j < |sigs| && sigs[i].id == sigs[j].id ==> sigs[i] == sigs[j]
  }

  function AsciiLower(c: char): char {
    if 'A' <= c <= 'Z' then (c as int - 'A' as int + 'a' as int) as char else c
  }

  function Lower(s: string): string {
    if s == "" then "" else [AsciiLower(s[0])] + Lower(s[1..])
  }

  /** Lowering keeps the length and changes the ASCII capitals only, each by 32. */
  lemma {:induction false} LowerAt(s: string, i: nat)
    requires i < |s|
    ensures |Lower(s)| == |s|
    ensures Lower(s)[i] as int == s[i] as int + if 'A' <= s[i] <= 'Z' then 32 else 0
  {
    if i > 0 {
      LowerAt(s[1..], i - 1);
    } else if |s| > 1 {
      LowerAt(s[1..], 0);
    }
  }

  lemma {:induction false} LowerKeeps(s: string)
    requires forall i :: 0 <= i < |s| ==> !('A' <= s[i] <= 'Z')
    ensures Lower(s) == s
  {
    if s != "" {
      LowerKeeps(s[1..]);
    }
  }

  predicate EqIgnoreCase(a: string, b: string) {
    Lower(a) == Lower(b)
  }

  /** The order of strings by code point, which is the byte order of their UTF-8 forms. */
  predicate LexLess(a: string, b: string) {
    if b == "" then false
    else if a == "" then true
    else if a[0] != b[0] then a[0] < b[0]
    else LexLess(a[1..], b[1..])
  }

  /** One string precedes another exactly when it is a proper prefix of it, or is smaller at the first
      character where they differ. */
  lemma {:induction false} LexLessIs(a: string, b: string)
    ensures LexLess(a, b) <==> (|a| < |b| && a == b[..|a|]) || exists i :: SmallerAt(a, b, i)
  {
    if a != "" && b != "" && a[0] == b[0] {
      LexLessIs(a[1..], b[1..]);
      PrefixSteps(a, b);
      hide SmallerAt;
      if i :| SmallerAt(a, b, i) {
        DifferenceSteps(a, b, i);
      }
      if i :| SmallerAt(a[1..], b[1..], i) {
        DifferenceSteps(a, b, i);
      }
    } else if a != "" && b != "" {
      if a[0] < b[0] {
        assert SmallerAt(a, b, 0);
      }
      forall i | 0 < i < |a| && i < |b| ensures a[..i] != b[..i] {
        assert a[..i][0] != b[..i][0];
      }
      if |a| < |b| {
        assert b[..|a|][0] == b[0];
      }
    }
  }

  lemma PrefixSteps(a: string, b: string)
    requires a != "" && b != "" && a[0] == b[0]
    ensures (|a| < |b| && a == b[..|a|]) <==> (|a[1..]| < |b[1..]| && a[1..] == b[1..][..|a[1..]|])
  {
    assert a == [a[0]] + a[1..] && b == [b[0]] + b[1..];
    if |a| < |b| {
      assert b[..|a|] == [b[0]] + b[1..][..|a[1..]|];
    }
  }

  /** `i` is the first place where the strings differ, and `a` is smaller there. */
  predicate SmallerAt(a: string, b: string, i: int) {
    0 <= i < |a| && i < |b| && a[..i] == b[..i] && a[i] < b[i]
  }

  lemma DifferenceSteps(a: string, b: string, i: int)
    requires a != "" && b != "" && a[0] == b[0]
    ensures SmallerAt(a, b, i) ==> SmallerAt(a[1..], b[1..], i - 1)
    ensures SmallerAt(a[1..], b[1..], i) ==> SmallerAt(a, b, i + 1)
  {
    if SmallerAt(a, b, i) {
      assert a[1..][..i - 1] == a[..i][1..] && b[1..][..i - 1] == b[..i][1..];
    }
    if SmallerAt(a[1..], b[1..], i) {
      assert a[..i + 1] == [a[0]] + a[1..][..i] && b[..i + 1] == [b[0]] + b[1..][..i];
    }
  }

  lemma LexAsymmetric(a: string, b: string)
    requires LexLess(a, b)
    ensures !LexLess(b, a)
  {
  }

  lemma {:induction false} LexTotal(a: string, b: string)
    ensures a == b || LexLess(a, b) || LexLess(b, a)
  {
    if a != "" && b != "" && a[0] == b[0] {
      LexTotal(a[1..], b[1..]);
      assert a == [a[0]] + a[1..] && b == [b[0]] + b[1..];
    }
  }

  lemma {:induction false} LexTransitive(a: string, b: string, c: string)
    requires LexLess(a, b) && LexLess(b, c)
    ensures LexLess(a, c)
  {
    if a != "" && a[0] == b[0] && b[0] == c[0] {
      LexTransitive(a[1..], b[1..], c[1..]);
    }
  }
}
