/** `src/App.jsx`: the web client's own classifier, its `parseSMS`, the accept/reject cascade of
    `handleAddTransaction`, the CSV export and the tax figures shown beside the list. */
module WebApp {
  import opened Wrappers
  import opened Text
  import opened Scan
  import opened Decimal
  import LimitBrackets
  import ServiceTax
  import BankAlertParser

  // ----------------------------------------------------------------------------------------
  // escapeRegExp

  /** The characters `escapeRegExp` puts a backslash before. */
  predicate IsRegExpSpecial(c: char) {
    c in ".*+?^${}()|[]\\"
  }

  function SpecialCount(s: string): nat {
    if s == [] then 0 else (if IsRegExpSpecial(s[0]) then 1 else 0) + SpecialCount(s[1..])
  }

  /** `escapeRegExp(str)`: one backslash more for every special character, nothing else added. */
  function EscapeRegExp(s: string): (r: string)
    ensures |r| == |s| + SpecialCount(s)
    ensures (forall k | 0 <= k < |s| :: !IsRegExpSpecial(s[k])) ==> r == s
  {
    if s == [] then []
    else (if IsRegExpSpecial(s[0]) then ['\\', s[0]] else [s[0]]) + EscapeRegExp(s[1..])
  }

  /** The text an escaped pattern matches: a backslash stands for the character after it. */
  function Unescape(p: string): string
    decreases |p|
  {
    if p == [] then []
    else if p[0] == '\\' && |p| >= 2 then [p[1]] + Unescape(p[2..])
    else [p[0]] + Unescape(p[1..])
  }

  /** The escaped text, read as a pattern, matches exactly the original text. */
  lemma {:induction false} UnescapeEscape(s: string)
    ensures Unescape(EscapeRegExp(s)) == s
  {
    if s != [] {
      UnescapeEscape(s[1..]);
      var tail := EscapeRegExp(s[1..]);
      if IsRegExpSpecial(s[0]) {
        assert EscapeRegExp(s) == ['\\', s[0]] + tail;
        assert (['\\', s[0]] + tail)[2..] == tail;
      } else {
        assert EscapeRegExp(s) == [s[0]] + tail;
        assert ([s[0]] + tail)[1..] == tail;
      }
    }
  }

  // ----------------------------------------------------------------------------------------
  // isDebitTransaction and isCreditTransaction

  const CriticalKeywords: seq<string> := ["debit", "dr"]

  const DebitKeywords: seq<string> := [
    "debited", "withdrawal", "withdraw", "transferred", "transfer from your", "payment to",
    "paid to", "sent to", "deducted", "charged", "purchase", "atm withdrawal", "pos purchase",
    "bill payment"
  ]

  const CreditKeywords: seq<string> := [
    "credited", "credit", "received", "deposit", "transfer from", "payment from", "salary",
    "refund", "reversal"
  ]

  /** `isDebitTransaction(text)`: a whole-word "debit" or "dr" in any case, or a listed phrase in
      the lower-cased text. */
  predicate IsDebitTransaction(text: string)
    ensures HasWordCI(text, "debit") || HasWordCI(text, "dr") ==> IsDebitTransaction(text)
    ensures Includes(Lower(text), "withdraw") || Includes(Lower(text), "purchase") ==> IsDebitTransaction(text)
  {
    assert CriticalKeywords[0] == "debit" && CriticalKeywords[1] == "dr";
    assert DebitKeywords[2] == "withdraw" && DebitKeywords[10] == "purchase";
    || (exists k | 0 <= k < |CriticalKeywords| :: HasWordCI(text, CriticalKeywords[k]))
    || (exists k | 0 <= k < |DebitKeywords| :: Includes(Lower(text), DebitKeywords[k]))
  }

  /** `isCreditTransaction(text)`: a listed phrase in the lower-cased text. */
  predicate IsCreditTransaction(text: string)
    ensures Includes(Lower(text), "credit") || Includes(Lower(text), "transfer from") ==> IsCreditTransaction(text)
  {
    assert CreditKeywords[1] == "credit" && CreditKeywords[4] == "transfer from";
    exists k | 0 <= k < |CreditKeywords| :: Includes(Lower(text), CreditKeywords[k])
  }

  /** The web client calls debit everything the mobile parser's keyword stages call debit: the
      two veto words are the same and its phrase list extends the mobile one. */
  lemma DebitCoversMobileKeywords(text: string)
    requires BankAlertParser.HasCriticalKeyword(text) || BankAlertParser.HasDebitKeyword(text)
    ensures IsDebitTransaction(text)
  {
    if !BankAlertParser.HasCriticalKeyword(text) {
      var k :| 0 <= k < |BankAlertParser.DebitKeywords| && Includes(Lower(text), BankAlertParser.DebitKeywords[k]);
      assert DebitKeywords[k] == BankAlertParser.DebitKeywords[k];
    }
  }

  /** "transfer from your" reads both as a debit phrase and, through "transfer from", as a credit
      phrase. */
  lemma TransferFromYourIsBoth(text: string)
    requires Includes(Lower(text), "transfer from your")
    ensures IsDebitTransaction(text) && IsCreditTransaction(text)
  {
    assert DebitKeywords[4] == "transfer from your";
    IncludesInside(Lower(text), "transfer from your", "transfer from", 0);
    assert CreditKeywords[4] == "transfer from";
  }

  // ----------------------------------------------------------------------------------------
  // checkIfUserIsReceiver and checkIfUserIsSender

  /** The word that introduces the name and the separator run between them: `\s+` or `[:\s]+`. */
  datatype Lead = Lead(word: string, separator: Class)

  const ReceiverLeads: seq<Lead> := [
    Lead("to", Space), Lead("receiver", SpaceOrColon), Lead("beneficiary", SpaceOrColon),
    Lead("credited to", Space), Lead("recipient", SpaceOrColon)
  ]

  const SenderLeads: seq<Lead> := [
    Lead("from", Space), Lead("sender", SpaceOrColon), Lead("by", Space), Lead("transfer from", Space)
  ]

  /** `\bword<sep>+name\b` matches at `i` (ignoring case): some non-empty separator run after the
      word, then the name, then a word boundary. */
  predicate LeadAt(s: string, i: nat, lead: Lead, name: string) {
    && Boundary(s, i) && AtCI(s, i, lead.word)
    && var p := i + |lead.word|;
       exists e | p < e <= Span(s, p, lead.separator) :: AtCI(s, e, name) && Boundary(s, e + |name|)
  }

  /** One of `leads`, followed by the name, occurs somewhere in `s`. */
  predicate AnyLeadAt(s: string, leads: seq<Lead>, name: string) {
    exists k, i | 0 <= k < |leads| && 0 <= i <= |s| :: LeadAt(s, i, leads[k], name)
  }

  /** The patterns are built from the escaped, trimmed user name; the escaped name matches the
      name itself. */
  function NamePattern(userName: string): (r: string)
    ensures Unescape(r) == Trim(userName)
  {
    UnescapeEscape(Trim(userName));
    EscapeRegExp(Trim(userName))
  }

  /** `checkIfUserIsReceiver(text)`: false without a user name; otherwise whether a receiver word
      is followed by the trimmed name, taken literally. */
  function CheckIfUserIsReceiver(text: string, userName: string): (r: bool)
    ensures userName == "" ==> !r
    ensures userName != "" ==> (r <==> AnyLeadAt(text, ReceiverLeads, Trim(userName)))
  {
    userName != "" && AnyLeadAt(text, ReceiverLeads, Unescape(NamePattern(userName)))
  }

  /** `checkIfUserIsSender(text)`, with the sender words. */
  function CheckIfUserIsSender(text: string, userName: string): (r: bool)
    ensures userName == "" ==> !r
    ensures userName != "" ==> (r <==> AnyLeadAt(text, SenderLeads, Trim(userName)))
  {
    userName != "" && AnyLeadAt(text, SenderLeads, Unescape(NamePattern(userName)))
  }

  /** Wherever a two-word lead matches, its last word matches as a lead on its own: the space
      before that word is a word boundary and the rest of the pattern is the same. */
  lemma TwoWordLeadSubsumed(s: string, i: nat, lead: Lead, last: Lead, name: string, d: nat)
    requires 0 < d < |lead.word| && lead.word[d..] == last.word && lead.word[d - 1] == ' '
    requires last.separator == lead.separator && IsWordChar(last.word[0])
    requires LeadAt(s, i, lead, name)
    ensures LeadAt(s, i + d, last, name)
  {
    var j := i + d;
    assert LowerChar(s[i + (d - 1)]) == LowerChar(lead.word[d - 1]);
    forall k | 0 <= k < |last.word|
      ensures LowerChar(s[j + k]) == LowerChar(last.word[k])
    {
      assert LowerChar(s[i + (d + k)]) == LowerChar(lead.word[d + k]);
    }
    assert IsWordChar(LowerChar(s[j]));
  }

  /** The receiver check's "credited to" pattern is subsumed by its "to" pattern. */
  lemma CreditedToSubsumed(s: string, i: nat, name: string)
    requires LeadAt(s, i, ReceiverLeads[3], name)
    ensures LeadAt(s, i + 9, ReceiverLeads[0], name)
  {
    TwoWordLeadSubsumed(s, i, ReceiverLeads[3], ReceiverLeads[0], name, 9);
  }

  /** The sender check's "transfer from" pattern is subsumed by its "from" pattern. */
  lemma TransferFromSubsumed(s: string, i: nat, name: string)
    requires LeadAt(s, i, SenderLeads[3], name)
    ensures LeadAt(s, i + 9, SenderLeads[0], name)
  {
    TwoWordLeadSubsumed(s, i, SenderLeads[3], SenderLeads[0], name, 9);
  }

  // ----------------------------------------------------------------------------------------
  // parseSMS

  /** The three amount patterns of `parseSMS`, in the order they are tried. */
  datatype SmsAmountPattern =
    | NairaAmount     // /(?:NGN|₦|N)\s*([0-9,]+\.?[0-9]*)/i
    | DollarAmount    // /(?:USD|\$)\s*([0-9,]+\.?[0-9]*)/i
    | KeywordAmount   // /(?:credited|received|deposit).*?([0-9,]+\.?[0-9]*)/i

  const SmsAmountPatterns: seq<SmsAmountPattern> := [NairaAmount, DollarAmount, KeywordAmount]

  /** `\s*([0-9,]+\.?[0-9]*)` from `j`: white space never starts an amount, so only the greedy
      run of it is tried. */
  function SpacedLooseAmount(s: string, j: nat): Option<string> {
    if j > |s| then None else LooseAmount(s, Span(s, j, Space))
  }

  /** `.*?([0-9,]+\.?[0-9]*)` from `k`: the first index from `k` on, reached over characters `.`
      matches, at which an amount starts. */
  function LazyLooseAmount(s: string, k: nat): Option<string>
    decreases |s| - k
  {
    if k > |s| then None
    else if LooseAmount(s, k).Some? then LooseAmount(s, k)
    else if k < |s| && !IsLineTerminator(s[k]) then LazyLooseAmount(s, k + 1)
    else None
  }

  function SmsAmountAt(pattern: SmsAmountPattern, s: string, i: nat): Option<string> {
    match pattern
    case NairaAmount => FirstAlt(s, i, ["ngn", "₦", "n"], (j: nat) => SpacedLooseAmount(s, j))
    case DollarAmount => FirstAlt(s, i, ["usd", "$"], (j: nat) => SpacedLooseAmount(s, j))
    case KeywordAmount => FirstAlt(s, i, ["credited", "received", "deposit"], (j: nat) => LazyLooseAmount(s, j))
  }

  /** `text.match(pattern)?.[1]`. */
  function SmsAmountCapture(pattern: SmsAmountPattern, text: string): Option<string> {
    Leftmost(text, (i: nat) => SmsAmountAt(pattern, text, i), 0)
  }

  function SmsAmountCaptures(text: string): (r: seq<Option<string>>)
    ensures |r| == |SmsAmountPatterns|
    ensures forall k | 0 <= k < |r| :: r[k] == SmsAmountCapture(SmsAmountPatterns[k], text)
  {
    seq(|SmsAmountPatterns|, k requires 0 <= k < |SmsAmountPatterns| => SmsAmountCapture(SmsAmountPatterns[k], text))
  }

  /** `parseFloat(capture.replace(/,/g, ""))`, `None` for NaN. */
  function CaptureValue(capture: string): Option<real> {
    ParseFloat(StripCommas(capture))
  }

  /** The amount `parseSMS` settles on: 0 when no pattern matches, otherwise the value of the
      first pattern's capture, NaN included, since the loop stops at the first match. */
  function SmsAmount(text: string): (r: Option<real>)
    ensures r.None? ==> exists k | 0 <= k < |SmsAmountPatterns| :: SmsAmountCapture(SmsAmountPatterns[k], text).Some?
  {
    match FirstFrom(SmsAmountCaptures(text), 0)
    case None => Some(0.0)
    case Some(c) => CaptureValue(c)
  }

  /** The first matching pattern decides, whatever its capture parses to. */
  lemma {:induction false} SmsAmountFirstMatch(text: string, k: nat)
    requires k < |SmsAmountPatterns|
    requires SmsAmountCapture(SmsAmountPatterns[k], text).Some?
    requires forall j | 0 <= j < k :: SmsAmountCapture(SmsAmountPatterns[j], text).None?
    ensures SmsAmount(text) == CaptureValue(SmsAmountCapture(SmsAmountPatterns[k], text).value)
  {
    var captures := SmsAmountCaptures(text);
    forall j | 0 <= j < k
      ensures captures[j].None?
    {
      assert captures[j] == SmsAmountCapture(SmsAmountPatterns[j], text);
    }
    FirstFromSkips(captures, k);
    assert FirstFrom(captures, k) == captures[k];
  }

  /** Without any match the amount stays 0. */
  lemma SmsAmountDefault(text: string)
    requires forall k | 0 <= k < |SmsAmountPatterns| :: SmsAmountCapture(SmsAmountPatterns[k], text).None?
    ensures SmsAmount(text) == Some(0.0)
  {
  }

  const SmsBanks: seq<string> := ["GTBank", "Access", "Zenith", "First Bank", "UBA", "Stanbic", "Kuda"]

  predicate MentionsSmsBank(text: string, k: nat)
    requires k < |SmsBanks|
  {
    Includes(Lower(text), Lower(SmsBanks[k]))
  }

  /** The first of the names from index `k` on that the lower-cased text contains, else "". */
  function SmsBankFrom(text: string, k: nat): (r: string)
    ensures r == "" <==> forall m | k <= m < |SmsBanks| :: !MentionsSmsBank(text, m)
    ensures r != "" ==>
      exists m | k <= m < |SmsBanks| ::
        MentionsSmsBank(text, m) && r == SmsBanks[m] && forall j | k <= j < m :: !MentionsSmsBank(text, j)
    decreases |SmsBanks| - k
  {
    if k >= |SmsBanks| then ""
    else if MentionsSmsBank(text, k) then SmsBanks[k]
    else SmsBankFrom(text, k + 1)
  }

  /** The two description patterns of `parseSMS`, in the order they are tried. */
  datatype SmsDescriptionPattern =
    | LabelledDescription    // /(?:from|narration:|desc:|description:)\s*([^\n.]+)/i
    | TransferDescription    // /(?:transfer from|payment from)\s*([^\n.]+)/i

  const SmsDescriptionPatterns: seq<SmsDescriptionPattern> := [LabelledDescription, TransferDescription]

  /** `\s*([^\n.]+)` from `j`: the greedy white space gives back characters until the capture can
      start, and the capture then runs to the next newline or full stop. */
  function DescriptionRest(s: string, j: nat): Option<string> {
    if j > |s| then None
    else
      match LastInClass(s, j, Span(s, j, Space), NotNewlineOrDot)
      case None => None
      case Some(c) => Some(s[c..Span(s, c, NotNewlineOrDot)])
  }

  function DescriptionRestOf(s: string): nat -> Option<string> {
    (j: nat) => DescriptionRest(s, j)
  }

  function SmsDescriptionAt(pattern: SmsDescriptionPattern, s: string, i: nat): Option<string> {
    match pattern
    case LabelledDescription =>
      FirstAlt(s, i, ["from", "narration:", "desc:", "description:"], DescriptionRestOf(s))
    case TransferDescription => FirstAlt(s, i, ["transfer from", "payment from"], DescriptionRestOf(s))
  }

  /** The pattern tried at each index of `text`. */
  function DescriptionMatcher(pattern: SmsDescriptionPattern, text: string): nat -> Option<string> {
    (i: nat) => SmsDescriptionAt(pattern, text, i)
  }

  function SmsDescriptionCapture(pattern: SmsDescriptionPattern, text: string): Option<string> {
    Leftmost(text, DescriptionMatcher(pattern, text), 0)
  }

  function SmsDescriptionCaptures(text: string): (r: seq<Option<string>>)
    ensures |r| == |SmsDescriptionPatterns|
    ensures forall k | 0 <= k < |r| :: r[k] == SmsDescriptionCapture(SmsDescriptionPatterns[k], text)
  {
    seq(|SmsDescriptionPatterns|, k requires 0 <= k < |SmsDescriptionPatterns| =>
      SmsDescriptionCapture(SmsDescriptionPatterns[k], text))
  }

  /** The description `parseSMS` settles on: the trimmed capture of the first pattern that
      matches, or, when that is empty or nothing matches, the first 60 characters and "...". */
  function SmsDescription(text: string): (r: string)
    ensures |r| > 0
    ensures FirstFrom(SmsDescriptionCaptures(text), 0).None? ==> r == Take(text, 60) + "..."
  {
    var d := match FirstFrom(SmsDescriptionCaptures(text), 0)
      case None => ""
      case Some(c) => Trim(c);
    if d == "" then Take(text, 60) + "..." else d
  }

  /** When the first pattern matches, its trimmed capture is the description, unless that trims
      to nothing, in which case the first 60 characters and "..." are. With
      `TransferDescriptionIsDead`, this settles the description in every case. */
  lemma LabelledDescriptionDecides(text: string)
    requires SmsDescriptionCapture(LabelledDescription, text).Some?
    ensures var c := Trim(SmsDescriptionCapture(LabelledDescription, text).value);
      SmsDescription(text) == (if c == "" then Take(text, 60) + "..." else c)
  {
    var caps := SmsDescriptionCaptures(text);
    assert caps[0] == SmsDescriptionCapture(LabelledDescription, text);
  }

  /** The second description pattern is never the one that decides: wherever "transfer from" or
      "payment from" starts a match, its "from" starts a match of the first pattern. */
  lemma TransferDescriptionIsDead(text: string)
    requires SmsDescriptionCapture(TransferDescription, text).Some?
    ensures SmsDescriptionCapture(LabelledDescription, text).Some?
  {
    var at := DescriptionMatcher(TransferDescription, text);
    var i :| 0 <= i <= |text| && at(i).Some?;
    var p := FromInsideTransfer(text, i);
    LabelledMatchesAfterFrom(text, p);
  }

  /** Where the second pattern matches at `i`, its "from" is followed by the same capture. */
  lemma FromInsideTransfer(text: string, i: nat) returns (p: nat)
    requires SmsDescriptionAt(TransferDescription, text, i).Some?
    ensures p <= |text| && AtCI(text, p, "from") && DescriptionRest(text, p + 4).Some?
  {
    var alt, d := TransferAlternative(text, i);
    p := FromAfter(text, i, alt, d);
  }

  /** The alternative of the second pattern that matched at `i`, and where its "from" starts. */
  lemma TransferAlternative(text: string, i: nat) returns (alt: string, d: nat)
    requires SmsDescriptionAt(TransferDescription, text, i).Some?
    ensures d + 4 == |alt| && At(alt, d, "from")
    ensures AtCI(text, i, alt) && DescriptionRest(text, i + |alt|).Some?
  {
    var alts := ["transfer from", "payment from"];
    var m := FirstAltPick(text, i, alts, DescriptionRestOf(text));
    alt := alts[m];
    d := if m == 0 then 9 else 8;
    assert At(alt, d, "from") by {
      TransferAlternativesEndInFrom();
    }
  }

  lemma TransferAlternativesEndInFrom()
    ensures At("transfer from", 9, "from") && At("payment from", 8, "from")
  {
  }

  lemma FromAfter(text: string, i: nat, alt: string, d: nat) returns (p: nat)
    requires d + 4 == |alt| && At(alt, d, "from")
    requires AtCI(text, i, alt) && DescriptionRest(text, i + |alt|).Some?
    ensures p <= |text| && AtCI(text, p, "from") && DescriptionRest(text, p + 4).Some?
  {
    AtCIInside(text, i, alt, "from", d);
    p := i + d;
  }

  /** A "from" followed by a description capture is a match of the first pattern. */
  lemma LabelledMatchesAfterFrom(text: string, p: nat)
    requires p <= |text| && AtCI(text, p, "from") && DescriptionRest(text, p + 4).Some?
    ensures SmsDescriptionCapture(LabelledDescription, text).Some?
  {
    var alts := ["from", "narration:", "desc:", "description:"];
    assert AtCI(text, p, alts[0]);
    assert DescriptionRestOf(text)(p + |alts[0]|).Some?;
    var at := DescriptionMatcher(LabelledDescription, text);
    assert at(p).Some?;
  }

  /** The transaction object `parseSMS` fills in; `amount` is `None` when it is NaN. */
  datatype SmsTransaction = SmsTransaction(
    date: string, amount: Option<real>, description: string, bank: string, rawSms: string)

  /** What `parseSMS(text)` returns on `date`. */
  function ParsedSms(text: string, date: string): (r: SmsTransaction)
    ensures r.date == date && r.rawSms == text
    ensures r.description != ""
    ensures r.bank == "" || exists m | 0 <= m < |SmsBanks| :: r.bank == SmsBanks[m] && MentionsSmsBank(text, m)
    ensures r.amount == SmsAmount(text) && r.bank == SmsBankFrom(text, 0) && r.description == SmsDescription(text)
  {
    SmsTransaction(date, SmsAmount(text), SmsDescription(text), SmsBankFrom(text, 0), text)
  }

  /** `parseSMS(text)`: the object starts with amount 0 and empty description and bank, and each
      loop fills in one field from the first pattern or name that matches. The clock is read by
      the caller and passed in as `date`. */
  method ParseSms(text: string, date: string) returns (tx: SmsTransaction)
    ensures tx == ParsedSms(text, date)
  {
    tx := SmsTransaction(date, Some(0.0), "", "", text);

    // the captures of `text.match(pattern)`, pattern by pattern
    var amounts := SmsAmountCaptures(text);
    for k := 0 to |SmsAmountPatterns|
      invariant FirstFrom(amounts, k) == FirstFrom(amounts, 0)
      invariant tx == SmsTransaction(date, Some(0.0), "", "", text)
    {
      var capture := amounts[k];
      if capture.Some? {
        tx := tx.(amount := CaptureValue(capture.value));
        break;
      }
    }

    for k := 0 to |SmsBanks|
      invariant SmsBankFrom(text, k) == SmsBankFrom(text, 0)
      invariant tx.bank == "" && tx.description == "" && tx.amount == SmsAmount(text)
      invariant tx.date == date && tx.rawSms == text
    {
      if Includes(Lower(text), Lower(SmsBanks[k])) {
        tx := tx.(bank := SmsBanks[k]);
        break;
      }
    }

    var descriptions := SmsDescriptionCaptures(text);
    for k := 0 to |SmsDescriptionPatterns|
      invariant FirstFrom(descriptions, k) == FirstFrom(descriptions, 0)
      invariant tx == SmsTransaction(date, SmsAmount(text), "", SmsBankFrom(text, 0), text)
    {
      var capture := descriptions[k];
      if capture.Some? {
        tx := tx.(description := Trim(capture.value));
        break;
      }
    }

    if tx.description == "" {
      tx := tx.(description := Take(text, 60) + "...");
    }
  }

  // ----------------------------------------------------------------------------------------
  // handleAddTransaction and processAsCredit

  /** Where pasting an alert ends: rejected for one of four reasons, or the parsed transaction
      sent to the server (whose own answer is not part of this model). */
  datatype AddOutcome =
    | BlankRejected      // "Please enter SMS text"
    | DebitRejected      // the debit pop-up
    | NoCreditKeywords   // "Unable to detect credit keywords."
    | AmountRejected     // "Could not extract valid amount."
    | Submitted(tx: SmsTransaction)

  /** `amount <= 0` on the parsed amount; NaN compares false, so it does not count. */
  predicate NonPositiveAmount(amount: Option<real>) {
    amount.Some? && amount.value <= 0.0
  }

  /** `processAsCredit()`: the parsed alert is rejected when its amount is not positive and sent
      to the server otherwise. */
  function ProcessAsCredit(text: string, date: string): (r: AddOutcome)
    ensures r == AmountRejected <==> NonPositiveAmount(SmsAmount(text))
    ensures r.Submitted? <==> !NonPositiveAmount(SmsAmount(text))
    ensures r.Submitted? ==> r.tx == ParsedSms(text, date)
  {
    var tx := ParsedSms(text, date);
    if NonPositiveAmount(tx.amount) then AmountRejected else Submitted(tx)
  }

  /** An alert in which no amount pattern matches keeps the amount 0 and is rejected. */
  lemma NoAmountIsRejected(text: string, date: string)
    requires forall k | 0 <= k < |SmsAmountPatterns| :: SmsAmountCapture(SmsAmountPatterns[k], text).None?
    ensures ProcessAsCredit(text, date) == AmountRejected
  {
    SmsAmountDefault(text);
  }

  /** A first amount capture that does not parse (NaN) is not caught here: `NaN <= 0` is false,
      so the transaction is sent on. */
  lemma UnparsableAmountIsSubmitted(text: string, date: string, k: nat)
    requires k < |SmsAmountPatterns|
    requires SmsAmountCapture(SmsAmountPatterns[k], text).Some?
    requires forall j | 0 <= j < k :: SmsAmountCapture(SmsAmountPatterns[j], text).None?
    requires CaptureValue(SmsAmountCapture(SmsAmountPatterns[k], text).value).None?
    ensures ProcessAsCredit(text, date).Submitted?
    ensures ProcessAsCredit(text, date).tx.amount.None?
  {
    SmsAmountFirstMatch(text, k);
  }

  /** `handleAddTransaction()`: blank text is refused; a match of the user as receiver is
      processed as a credit before anything else is looked at; then a match as sender or any
      debit keyword raises the debit pop-up; then text without credit keywords is refused; and
      what is left is processed as a credit. */
  function HandleAddTransaction(text: string, userName: string, date: string): (r: AddOutcome)
    ensures r == BlankRejected <==> Trim(text) == ""
    ensures Trim(text) != "" && CheckIfUserIsReceiver(text, userName) ==> r == ProcessAsCredit(text, date)
    ensures r == DebitRejected <==>
      && Trim(text) != ""
      && !CheckIfUserIsReceiver(text, userName)
      && (CheckIfUserIsSender(text, userName) || IsDebitTransaction(text))
    ensures r == NoCreditKeywords <==>
      && Trim(text) != ""
      && !CheckIfUserIsReceiver(text, userName) && !CheckIfUserIsSender(text, userName)
      && !IsDebitTransaction(text) && !IsCreditTransaction(text)
    ensures r.Submitted? || r == AmountRejected ==> r == ProcessAsCredit(text, date)
  {
    if Trim(text) == "" then BlankRejected
    else if CheckIfUserIsReceiver(text, userName) then ProcessAsCredit(text, date)
    else if CheckIfUserIsSender(text, userName) || IsDebitTransaction(text) then DebitRejected
    else if !IsCreditTransaction(text) then NoCreditKeywords
    else ProcessAsCredit(text, date)
  }

  /** What reaches the server is either addressed to the user or a credit alert with no debit
      word and no match of the user as sender; its amount is positive or NaN. */
  lemma SubmittedIsCredit(text: string, userName: string, date: string)
    requires HandleAddTransaction(text, userName, date).Submitted?
    ensures
      || CheckIfUserIsReceiver(text, userName)
      || (IsCreditTransaction(text) && !IsDebitTransaction(text) && !CheckIfUserIsSender(text, userName))
    ensures HandleAddTransaction(text, userName, date).tx == ParsedSms(text, date)
    ensures !NonPositiveAmount(HandleAddTransaction(text, userName, date).tx.amount)
  {
  }

  /** Without a user name the decision rests on the keywords alone. */
  lemma NoUserNameUsesKeywords(text: string, date: string)
    requires Trim(text) != ""
    ensures HandleAddTransaction(text, "", date) ==
      if IsDebitTransaction(text) then DebitRejected
      else if !IsCreditTransaction(text) then NoCreditKeywords
      else ProcessAsCredit(text, date)
  {
  }

  /** "transfer from your" in an alert not addressed to the user is always turned away as a
      debit, although it also contains the credit phrase "transfer from". */
  lemma TransferFromYourIsRejected(text: string, userName: string, date: string)
    requires Includes(Lower(text), "transfer from your")
    requires !CheckIfUserIsReceiver(text, userName)
    ensures HandleAddTransaction(text, userName, date) == DebitRejected
  {
    TransferFromYourIsBoth(text);
    assert Trim(text) != "" by {
      TrimNonEmpty(text, "transfer from your");
    }
  }

  lemma TrimNonEmpty(text: string, w: string)
    requires Includes(Lower(text), w) && w != [] && !IsSpace(w[0])
    ensures Trim(text) != ""
  {
    var i :| 0 <= i <= |text| && At(Lower(text), i, w);
    assert !IsSpace(LowerChar(text[i]));
    TrimEmpty(text);
  }

  // ----------------------------------------------------------------------------------------
  // handleExport

  /** A saved transaction as the list holds it, each field in the text form the template string
      prints; a missing description or bank is "". */
  datatype Tx = Tx(date: string, amount: string, description: string, bank: string)

  const Header: string := "Date,Amount,Description,Bank\n"

  /** `replace(/"/g, '""')`: every double quote doubled, nothing else touched. */
  function DoubleQuotes(s: string): (r: string)
    ensures |r| >= |s|
    ensures '"' !in s ==> r == s
  {
    if s == [] then []
    else (if s[0] == '"' then ['"', '"'] else [s[0]]) + DoubleQuotes(s[1..])
  }

  /** One line of the export: the description quoted, the other fields as they are. */
  function Row(t: Tx): (r: string)
    ensures |r| > |t.date| && r[..|t.date|] == t.date && r[|r| - 1] == '\n'
  {
    t.date + [','] + t.amount + [',', '"'] + DoubleQuotes(t.description) + ['"', ','] + t.bank + ['\n']
  }

  /** The lines of `transactions`, in list order. */
  function Rows(transactions: seq<Tx>): (r: string)
    ensures r == "" <==> transactions == []
    ensures transactions != [] ==> r[|r| - 1] == '\n'
  {
    if transactions == [] then "" else Row(transactions[0]) + Rows(transactions[1..])
  }

  lemma {:induction false} RowsAppend(transactions: seq<Tx>, t: Tx)
    ensures Rows(transactions + [t]) == Rows(transactions) + Row(t)
  {
    if transactions != [] {
      assert (transactions + [t])[1..] == transactions[1..] + [t];
      RowsAppend(transactions[1..], t);
    }
  }

  /** `handleExport()`: the header, then each transaction's line appended in turn. */
  method HandleExport(transactions: seq<Tx>) returns (csv: string)
    ensures csv == Header + Rows(transactions)
  {
    csv := Header;
    for k := 0 to |transactions|
      invariant csv == Header + Rows(transactions[..k])
    {
      var row := Row(transactions[k]);
      assert Rows(transactions[..k + 1]) == Rows(transactions[..k]) + row by {
        PrefixStep(transactions, k);
        RowsAppend(transactions[..k], transactions[k]);
      }
      assert csv + row == Header + (Rows(transactions[..k]) + row) by {
        AppendAssociates(Header, Rows(transactions[..k]), row);
      }
      csv := csv + row;
    }
    assert transactions[..|transactions|] == transactions;
  }

  lemma PrefixStep<T>(s: seq<T>, k: nat)
    requires k < |s|
    ensures s[..k + 1] == s[..k] + [s[k]]
  {
  }

  lemma AppendAssociates<T>(a: seq<T>, b: seq<T>, c: seq<T>)
    ensures (a + b) + c == a + (b + c)
  {
  }

  // Reading the export back, as a CSV reader does.

  /** The body of a quoted field up to its closing quote, with `""` read as one quote, and the
      text after the closing quote. */
  function ReadQuoted(s: string): (r: Option<(string, string)>)
    ensures r.Some? ==> |r.value.1| < |s|
  {
    if s == [] then None
    else if s[0] == '"' then
      if |s| >= 2 && s[1] == '"' then
        match ReadQuoted(s[2..])
        case None => None
        case Some((body, rest)) => Some(("\"" + body, rest))
      else Some(("", s[1..]))
    else
      match ReadQuoted(s[1..])
      case None => None
      case Some((body, rest)) => Some(([s[0]] + body, rest))
  }

  /** The text before the first `d`, and the text after it. */
  function Field(s: string, d: char): (r: Option<(string, string)>)
    ensures r.Some? ==> |r.value.1| < |s|
  {
    if s == [] then None
    else if s[0] == d then Some(("", s[1..]))
    else
      match Field(s[1..], d)
      case None => None
      case Some((f, rest)) => Some(([s[0]] + f, rest))
  }

  /** One line of the export read back into a transaction, and the text after it. */
  function ReadRow(s: string): (r: Option<(Tx, string)>)
    ensures r.Some? ==> |r.value.1| < |s|
  {
    match Field(s, ',')
    case None => None
    case Some((date, s1)) =>
      match Field(s1, ',')
      case None => None
      case Some((amount, s2)) =>
        if s2 == [] || s2[0] != '"' then None
        else
          match ReadQuoted(s2[1..])
          case None => None
          case Some((description, s3)) =>
            if s3 == [] || s3[0] != ',' then None
            else
              match Field(s3[1..], '\n')
              case None => None
              case Some((bank, rest)) => Some((Tx(date, amount, description, bank), rest))
  }

  function ReadRows(s: string): Option<seq<Tx>>
    decreases |s|
  {
    if s == [] then Some([])
    else
      match ReadRow(s)
      case None => None
      case Some((t, rest)) =>
        match ReadRows(rest)
        case None => None
        case Some(ts) => Some([t] + ts)
  }

  /** A whole export read back: the header line, then the rows. */
  function ReadCsv(csv: string): Option<seq<Tx>> {
    if |csv| >= |Header| && csv[..|Header|] == Header then ReadRows(csv[|Header|..]) else None
  }

  /** The unquoted fields hold no separator, quote or line break; the description may hold
      anything. */
  predicate Plain(t: Tx) {
    && ',' !in t.date && '"' !in t.date && '\n' !in t.date
    && ',' !in t.amount && '"' !in t.amount && '\n' !in t.amount
    && '\n' !in t.bank
  }

  lemma {:induction false} FieldRoundTrip(f: string, d: char, rest: string)
    requires d !in f
    ensures Field(f + [d] + rest, d) == Some((f, rest))
  {
    if f == [] {
      assert f + [d] + rest == [d] + rest;
    } else {
      assert (f + [d] + rest)[1..] == f[1..] + [d] + rest;
      FieldRoundTrip(f[1..], d, rest);
      assert [f[0]] + f[1..] == f;
    }
  }

  /** A doubled description followed by the closing quote reads back as the description. */
  lemma {:induction false} QuotedRoundTrip(description: string, rest: string)
    requires rest == [] || rest[0] != '"'
    ensures ReadQuoted(DoubleQuotes(description) + "\"" + rest) == Some((description, rest))
  {
    if description == [] {
      DropHead('"', rest);
    } else {
      var c := description[0];
      var tail := DoubleQuotes(description[1..]) + "\"" + rest;
      QuotedRoundTrip(description[1..], rest);
      var head := if c == '"' then ['"', '"'] else [c];
      assert DoubleQuotes(description) + "\"" + rest == head + tail by {
        AppendAssociates(head, DoubleQuotes(description[1..]), "\"");
        AppendAssociates(head + DoubleQuotes(description[1..]), "\"", rest);
        AppendAssociates(head, DoubleQuotes(description[1..]) + "\"", rest);
      }
      if c == '"' {
        DropHead('"', tail);
        DropHead('"', ['"'] + tail);
        assert (head + tail)[2..] == tail;
      } else {
        DropHead(c, tail);
      }
      assert [c] + description[1..] == description;
    }
  }

  /** Each exported line reads back as the transaction it was made from. */
  lemma RowRoundTrip(t: Tx, rest: string)
    requires Plain(t)
    ensures ReadRow(Row(t) + rest) == Some((t, rest))
  {
    var s3 := [','] + (t.bank + ['\n'] + rest);
    var s2 := ['"'] + (DoubleQuotes(t.description) + ['"'] + s3);
    var s1 := t.amount + [','] + s2;
    assert Field(Row(t) + rest, ',') == Some((t.date, s1)) by {
      RowShape(t.date, t.amount, DoubleQuotes(t.description), t.bank, rest, ',', '"', '\n');
      FieldRoundTrip(t.date, ',', s1);
    }
    assert Field(s1, ',') == Some((t.amount, s2)) by {
      FieldRoundTrip(t.amount, ',', s2);
    }
    assert ReadQuoted(s2[1..]) == Some((t.description, s3)) by {
      DropHead('"', DoubleQuotes(t.description) + ['"'] + s3);
      QuotedRoundTrip(t.description, s3);
    }
    assert Field(s3[1..], '\n') == Some((t.bank, rest)) by {
      DropHead(',', t.bank + ['\n'] + rest);
      FieldRoundTrip(t.bank, '\n', rest);
    }
  }

  lemma RowShape<T>(date: seq<T>, amount: seq<T>, body: seq<T>, bank: seq<T>, rest: seq<T>, comma: T, quote: T, nl: T)
    ensures date + [comma] + amount + [comma, quote] + body + [quote, comma] + bank + [nl] + rest
      == date + [comma] + (amount + [comma] + ([quote] + (body + [quote] + ([comma] + (bank + [nl] + rest)))))
  {
  }

  lemma DropHead<T>(x: T, s: seq<T>)
    ensures ([x] + s)[1..] == s
  {
  }

  lemma {:induction false} RowsRoundTrip(transactions: seq<Tx>)
    requires forall k | 0 <= k < |transactions| :: Plain(transactions[k])
    ensures ReadRows(Rows(transactions)) == Some(transactions)
  {
    if transactions != [] {
      var t := transactions[0];
      var tail := transactions[1..];
      forall k | 0 <= k < |tail|
        ensures Plain(tail[k])
      {
        assert tail[k] == transactions[k + 1];
      }
      var text := Rows(transactions);
      assert text == Row(t) + Rows(tail) && text != [];
      assert ReadRow(text) == Some((t, Rows(tail))) by {
        RowRoundTrip(t, Rows(tail));
      }
      RowsRoundTrip(tail);
      assert [t] + tail == transactions;
    }
  }

  /** The exported text reads back as the list it was made from, in the same order. */
  lemma ExportRoundTrip(transactions: seq<Tx>)
    requires forall k | 0 <= k < |transactions| :: Plain(transactions[k])
    ensures ReadCsv(Header + Rows(transactions)) == Some(transactions)
  {
    var csv := Header + Rows(transactions);
    assert csv[..|Header|] == Header;
    assert csv[|Header|..] == Rows(transactions);
    RowsRoundTrip(transactions);
  }

  // ----------------------------------------------------------------------------------------
  // calculateTax and the totals

  /** The table `calculateTax` declares for itself. */
  const Brackets: seq<LimitBrackets.Bracket> := [
    LimitBrackets.Bracket(LimitBrackets.Finite(800000.0), 0.0),
    LimitBrackets.Bracket(LimitBrackets.Finite(3000000.0), 0.15),
    LimitBrackets.Bracket(LimitBrackets.Finite(12000000.0), 0.18),
    LimitBrackets.Bracket(LimitBrackets.Finite(25000000.0), 0.21),
    LimitBrackets.Bracket(LimitBrackets.Finite(50000000.0), 0.23),
    LimitBrackets.Bracket(LimitBrackets.Unbounded, 0.25)
  ]

  /** `calculateTax(income)`: the bracket loop, without the early return for incomes that are
      not positive. */
  method CalculateTax(income: real) returns (tax: real)
    ensures tax == LimitBrackets.TaxOver(Brackets, income)
  {
    tax := LimitBrackets.AccrueTax(Brackets, income);
  }

  /** The web client's tax is the mobile service's for every income, negative ones included:
      the tables are equal and the missing guard changes nothing. */
  lemma AppTaxAgreesWithService(income: real)
    ensures LimitBrackets.TaxOver(Brackets, income) == ServiceTax.Tax(income)
  {
    assert Brackets == LimitBrackets.TaxBrackets;
    ServiceTax.GuardIsRedundant(income);
  }

  /** `calculateTax` is 0 up to 800,000, negative incomes included, never decreases, and
      never exceeds a quarter of a non-negative income. */
  lemma AppTaxProperties(x: real, y: real)
    requires x <= y
    ensures x <= 800000.0 ==> LimitBrackets.TaxOver(Brackets, x) == 0.0
    ensures 0.0 <= LimitBrackets.TaxOver(Brackets, x) <= LimitBrackets.TaxOver(Brackets, y)
    ensures x >= 0.0 ==> LimitBrackets.TaxOver(Brackets, x) <= x * 0.25
  {
    assert Brackets == LimitBrackets.TaxBrackets;
    if x <= 800000.0 {
      LimitBrackets.NothingUpToFirstLimit(x);
    }
    LimitBrackets.TaxMonotone(x, y);
    LimitBrackets.TaxBounds(x);
  }

  /** `Number(t.amount) || 0`: the amount's numeric value, with NaN counted as 0. */
  function AmountOrZero(amount: string): (r: real)
    ensures Trim(amount) == [] ==> r == 0.0
    ensures NumberValue(amount).Some? ==> r == NumberValue(amount).value
    ensures NumberValue(amount).None? ==> r == 0.0
  {
    match NumberValue(amount)
    case Some(v) => v
    case None => 0.0
  }

  /** `transactions.reduce((sum, t) => sum + (Number(t.amount) || 0), 0)`. */
  function TotalIncome(transactions: seq<Tx>): (r: real)
    ensures (forall k | 0 <= k < |transactions| :: AmountOrZero(transactions[k].amount) >= 0.0) ==> r >= 0.0
  {
    if transactions == [] then 0.0
    else TotalIncome(transactions[..|transactions| - 1]) + AmountOrZero(transactions[|transactions| - 1].amount)
  }

  /** The total of two lists one after the other is the sum of their totals. */
  lemma {:induction false} TotalIncomeConcat(a: seq<Tx>, b: seq<Tx>)
    ensures TotalIncome(a + b) == TotalIncome(a) + TotalIncome(b)
    decreases |b|
  {
    if b != [] {
      var last := b[|b| - 1];
      assert (a + b)[..|a + b| - 1] == a + b[..|b| - 1];
      TotalIncomeConcat(a, b[..|b| - 1]);
    } else {
      assert a + b == a;
    }
  }

  /** A transaction whose amount is not a number adds nothing to the total, wherever it is. */
  lemma UnparsableAmountCountsZero(a: seq<Tx>, t: Tx, b: seq<Tx>)
    requires NumberValue(t.amount).None?
    ensures TotalIncome(a + [t] + b) == TotalIncome(a + b)
  {
    var single: seq<Tx> := [t];
    TotalIncomeConcat(a + single, b);
    TotalIncomeConcat(a, single);
    TotalIncomeConcat(a, b);
    assert single[..0] == [];
  }

  /** The figures shown beside the list. */
  datatype Totals = Totals(totalIncome: real, annualTax: real, netIncome: real, effectiveRate: real)

  /** `totalIncome`, `annualTax`, `netIncome` and `effectiveRate`: the tax of the total, what is
      left of the total, and the tax as a percentage of a positive total. */
  function AppTotals(transactions: seq<Tx>): (r: Totals)
    ensures r.totalIncome == TotalIncome(transactions)
    ensures r.annualTax == ServiceTax.Tax(r.totalIncome)
    ensures r.netIncome + r.annualTax == r.totalIncome
    ensures r.totalIncome >= 0.0 ==> r.totalIncome * 0.75 <= r.netIncome <= r.totalIncome
    ensures 0.0 <= r.effectiveRate <= 25.0
    ensures r.effectiveRate == 0.0 <==> r.totalIncome <= 800000.0
  {
    var total := TotalIncome(transactions);
    var tax := LimitBrackets.TaxOver(Brackets, total);
    AppTaxAgreesWithService(total);
    AppTaxProperties(total, total);
    var rate := if total > 0.0 then tax / total * 100.0 else 0.0;
    assert 0.0 <= rate <= 25.0 && (rate == 0.0 <==> total <= 800000.0) by {
      if total > 0.0 {
        assert rate == ServiceTax.EffectiveRate(total);
      }
    }
    Totals(total, tax, total - tax, rate)
  }
}
