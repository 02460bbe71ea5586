/** Human ids the control plane derives for jobs, and the SQL pattern it finds them with. */
module JobIds {
  import opened Prelude
  import opened Jobs
  import RetryNames

  function QueueText(q: Queue): string {
    match q
    case PM => "PM"
    case ARCHITECTURE => "ARCHITECTURE"
    case DELIVERY => "DELIVERY"
    case ASSURANCE_FUNCTIONAL => "ASSURANCE_FUNCTIONAL"
    case ASSURANCE_INTEGRATION => "ASSURANCE_INTEGRATION"
    case ASSURANCE_SECURITY => "ASSURANCE_SECURITY"
    case ASSURANCE_QUALITY => "ASSURANCE_QUALITY"
    case QA_MANAGER => "QA_MANAGER"
    case RELEASE => "RELEASE"
    case INTEGRATION => "INTEGRATION"
    case UnknownQueue(text) => text
  }

  /** The id of the job that assesses a delivery in one role. */
  function AssuranceId(parent: Name, queue: Queue): Name {
    Name(parent.text + "__" + QueueText(queue))
  }

  function Prefix(s: string, n: nat): string {
    if |s| <= n then s else s[..n]
  }

  /** At least three digits. */
  function Padded(n: nat): string {
    (if n < 10 then "00" else if n < 100 then "0" else "") + RetryNames.Decimal(n)
  }

  /** The id of a further attempt; only twelve characters of the candidate enter it. */
  function RetryId(run: Name, candidate: Name, queue: Queue, attempt: nat): Name {
    Name(run.text + "__" + Prefix(candidate.text, 12) + "__" + QueueText(queue) + "__RETRY_" + Padded(attempt))
  }

  lemma {:induction false} LeadingZero(s: string)
    ensures RetryNames.ValueOf("0" + s) == RetryNames.ValueOf(s)
  {
    var t := "0" + s;
    if s == [] {
      assert t[..0] == [];
    } else {
      assert t[..|t| - 1] == "0" + s[..|s| - 1];
      LeadingZero(s[..|s| - 1]);
    }
  }

  /** An attempt number is written with three digits, or with all it needs, and can be read back. */
  lemma PaddedMeans(n: nat)
    ensures RetryNames.ValueOf(Padded(n)) == n
    ensures n < 1000 ==> |Padded(n)| == 3
    ensures n >= 1000 ==> Padded(n) == RetryNames.Decimal(n) && |Padded(n)| > 3
  {
    var d := RetryNames.Decimal(n);
    RetryNames.DecimalRoundTrip(n);
    if n < 10 {
      LeadingZero(d);
      LeadingZero("0" + d);
      assert "0" + ("0" + d) == "00" + d;
    } else if n < 100 {
      LeadingZero(d);
    } else {
      assert Padded(n) == d;
    }
  }

  /** Attempts of one role on one candidate have different ids. */
  lemma RetryIdInjective(run: Name, candidate: Name, queue: Queue, m: nat, n: nat)
    ensures RetryId(run, candidate, queue, m) == RetryId(run, candidate, queue, n) ==> m == n
  {
    var head := run.text + "__" + Prefix(candidate.text, 12) + "__" + QueueText(queue) + "__RETRY_";
    assert RetryId(run, candidate, queue, m).text[|head|..] == Padded(m) && RetryId(run, candidate, queue, n).text[|head|..] == Padded(n);
    PaddedMeans(m);
    PaddedMeans(n);
  }

  // ---------------------------------------------------------------------------
  // LIKE
  // ---------------------------------------------------------------------------

  function Lower(c: char): char {
    if 'A' <= c <= 'Z' then 'a' + (c - 'A') else c
  }

  /** Only capital letters are changed, each to its small one, 32 further on. */
  lemma LowerMeans(c: char)
    ensures Lower(c) != c <==> 65 <= c as int <= 90
    ensures Lower(c) != c ==> Lower(c) as int == c as int + 32
  {
  }

  /** SQLite's LIKE: `%` stands for any text, `_` for any one character, ASCII case is ignored. */
  predicate Like(pattern: string, text: string)
    decreases |pattern| + |text|
  {
    if pattern == [] then text == []
    else if pattern[0] == '%' then Like(pattern[1..], text) || (text != [] && Like(pattern, text[1..]))
    else text != [] && Fits(pattern[0], text[0]) && Like(pattern[1..], text[1..])
  }

  /** The pattern meant to find the jobs derived from a delivery. */
  function DerivedPattern(id: Name): string {
    id.text + "__%"
  }

  lemma {:induction false} AnythingIsLikePercent(text: string)
    ensures Like("%", text)
  {
    if text != [] {
      AnythingIsLikePercent(text[1..]);
    }
  }

  /** Two underscores and a percent sign match any text of at least two characters. */
  lemma TailMatches(text: string)
    ensures Like("__%", text) <==> |text| >= 2
  {
    assert "__%"[1..] == "_%" && "_%"[1..] == "%";
    if |text| >= 2 {
      AnythingIsLikePercent(text[1..][1..]);
    }
  }

  predicate Fits(p: char, c: char) {
    p == '_' || Lower(p) == Lower(c)
  }

  /** `id` begins `text`, ASCII case aside and with its underscores standing for anything, and at least
      two characters follow. */
  predicate Begins(id: string, text: string) {
    |text| >= |id| + 2 && forall i :: 0 <= i < |id| ==> Fits(id[i], text[i])
  }

  lemma BeginsStep(id: string, text: string)
    requires id != [] && text != []
    ensures Begins(id, text) <==> Fits(id[0], text[0]) && Begins(id[1..], text[1..])
  {
    if Fits(id[0], text[0]) && Begins(id[1..], text[1..]) {
      forall i | 0 <= i < |id|
        ensures Fits(id[i], text[i])
      {
        if i > 0 {
          assert id[1..][i - 1] == id[i] && text[1..][i - 1] == text[i];
        }
      }
    }
  }

  /** What the pattern finds for an id without a percent sign: whatever begins with the id and goes on
      for two more characters of any kind. */
  lemma {:induction false} DerivedPatternFinds(id: string, text: string)
    requires '%' !in id
    ensures Like(id + "__%", text) <==> Begins(id, text)
  {
    if id == [] {
      assert id + "__%" == "__%";
      TailMatches(text);
    } else {
      var pattern := id + "__%";
      assert pattern[0] == id[0] && pattern[1..] == id[1..] + "__%";
      assert id[0] in id;
      if text != [] {
        DerivedPatternFinds(id[1..], text[1..]);
        BeginsStep(id, text);
      }
    }
  }

  /** A text is like itself, wildcards and all. */
  lemma {:induction false} LikeItself(p: string, pattern: string, text: string)
    requires Like(pattern, text)
    ensures Like(p + pattern, p + text)
  {
    if p == [] {
      assert p + pattern == pattern && p + text == text;
    } else {
      LikeItself(p[1..], pattern, text);
      assert (p + pattern)[1..] == p[1..] + pattern && (p + text)[1..] == p[1..] + text;
    }
  }

  /** Whatever the id, the jobs of its hand-off are found. */
  lemma AssuranceIsFound(parent: Name, queue: Queue)
    ensures Like(DerivedPattern(parent), AssuranceId(parent, queue).text)
  {
    var tail := "__" + QueueText(queue);
    TailMatches(tail);
    LikeItself(parent.text, "__%", tail);
    assert parent.text + tail == AssuranceId(parent, queue).text;
  }
}
