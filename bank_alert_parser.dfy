/** The bank-alert parser of the mobile app (mobile-app/services/bankAlertParser.js): it drops
    receipt footers from the alert text, decides whether the alert is a debit, and extracts the
    amount, the bank and a description. The user's name plays no part in it. */
module BankAlertParser {
  import opened Wrappers
  import opened Text
  import opened Scan
  import opened Decimal

  datatype TxType = Expense | Income

  /** The object `parseBankAlert` returns. `date` is today's date, which the caller supplies. */
  datatype ParsedAlert = ParsedAlert(amount: real, txType: TxType, description: string, bank: string, date: string)

  const UnknownBank := "Unknown Bank"

  // ----------------------------------------------------------------------------------------
  // cleanForDetection

  /** Phrases of receipt footers whose words would mislead the debit detection. */
  const JunkPhrases: seq<string> := [
    "enjoy a better life", "get free transfers", "withdrawals", "bill payments", "instant loans",
    "annual interest", "licensed by", "central bank", "insured by", "ndic"
  ]

  /** `junkLineRegex.test(line)`. */
  predicate IsJunkLine(line: string) {
    MentionsAny(line, JunkPhrases)
  }

  /** Some phrase of `phrases` occurs in `line`, ignoring case. */
  predicate MentionsAny(line: string, phrases: seq<string>) {
    phrases != [] && (ContainsCI(line, phrases[0]) || MentionsAny(line, phrases[1..]))
  }

  /** A line as cleaning leaves it: trimmed, non-empty and no footer. */
  predicate IsCleanLine(line: string) {
    line != "" && Trim(line) == line && !IsJunkLine(line)
  }

  /** The pieces trimmed, without the empty ones and without the footer lines, in order. */
  function KeptLines(pieces: seq<string>): (r: seq<string>)
    requires forall k | 0 <= k < |pieces| :: '\n' !in pieces[k]
    ensures forall k | 0 <= k < |r| :: IsCleanLine(r[k]) && '\n' !in r[k]
    ensures |r| <= |pieces|
  {
    if |pieces| == 0 then []
    else
      var line := Trim(pieces[0]);
      var head := if line != "" && !IsJunkLine(line) then [line] else [];
      var rest := KeptLines(pieces[1..]);
      KeptLinesStep(pieces[0], head, rest);
      head + rest
  }

  /** A piece's trimmed line, when kept, is clean and joins the clean lines kept after it. */
  lemma KeptLinesStep(piece: string, head: seq<string>, rest: seq<string>)
    requires '\n' !in piece
    requires head == if Trim(piece) != "" && !IsJunkLine(Trim(piece)) then [Trim(piece)] else []
    requires forall k | 0 <= k < |rest| :: IsCleanLine(rest[k]) && '\n' !in rest[k]
    ensures forall k | 0 <= k < |head + rest| :: IsCleanLine((head + rest)[k]) && '\n' !in (head + rest)[k]
  {
    forall k | 0 <= k < |head + rest|
      ensures IsCleanLine((head + rest)[k]) && '\n' !in (head + rest)[k]
    {
      if k < |head| {
        var line := Trim(piece);
        assert (head + rest)[k] == line;
        assert line != "" && !IsJunkLine(line);
        assert Trim(line) == line by { TrimIdempotent(piece); }
        assert '\n' !in line;
      } else {
        assert (head + rest)[k] == rest[k - |head|];
      }
    }
  }

  /** `cleanForDetection(text)`. Splitting on `\r?\n` and trimming gives the same lines as
      splitting on `\n` and trimming, since trimming removes a trailing `\r`. */
  function CleanForDetection(text: string): (r: string)
    ensures r == "" <==> KeptLines(Split(text, '\n')) == []
  {
    if text == "" then "" else Join(KeptLines(Split(text, '\n')), '\n')
  }

  /** Cleaning keeps the lines a clean line would keep: every line of a cleaned text is one. */
  lemma {:induction false} KeptLinesOfCleanLines(lines: seq<string>)
    requires forall k | 0 <= k < |lines| :: IsCleanLine(lines[k]) && '\n' !in lines[k]
    ensures KeptLines(lines) == lines
    decreases |lines|
  {
    if |lines| > 0 {
      var tail := lines[1..];
      forall k | 0 <= k < |tail|
        ensures IsCleanLine(tail[k]) && '\n' !in tail[k]
      {
        assert tail[k] == lines[k + 1];
      }
      KeptLinesOfCleanLines(tail);
      KeptCleanHead(lines);
      assert [lines[0]] + tail == lines;
    }
  }

  lemma KeptCleanHead(lines: seq<string>)
    requires |lines| > 0 && IsCleanLine(lines[0])
    requires forall k | 0 <= k < |lines| :: '\n' !in lines[k]
    ensures KeptLines(lines) == [lines[0]] + KeptLines(lines[1..])
  {
  }

  /** The lines of a cleaned text are exactly the kept lines of the original, in order. */
  lemma CleanedLines(text: string)
    requires CleanForDetection(text) != ""
    ensures Split(CleanForDetection(text), '\n') == KeptLines(Split(text, '\n'))
    ensures forall k | 0 <= k < |Split(CleanForDetection(text), '\n')| ::
      IsCleanLine(Split(CleanForDetection(text), '\n')[k])
  {
    var kept := KeptLines(Split(text, '\n'));
    assert |kept| >= 1;
    SplitJoin(kept, '\n');
  }

  /** Cleaning twice is cleaning once. */
  lemma CleanIdempotent(text: string)
    ensures CleanForDetection(CleanForDetection(text)) == CleanForDetection(text)
  {
    var r := CleanForDetection(text);
    if r != "" {
      CleanedLines(text);
      KeptLinesOfCleanLines(Split(r, '\n'));
      JoinSplit(r, '\n');
    }
  }

  // ----------------------------------------------------------------------------------------
  // isDebitTransaction: the section scan

  const RecipientDetails: seq<Alt> := [Gap("recipient", 1, "details")]
  const SenderDetails: seq<Alt> := [Gap("sender", 1, "details")]
  const TransactionNo: seq<Alt> := [Gap("transaction", 1, "no")]

  /** What a line does to the scan, tested in the order the loop tests it. */
  datatype LineKind = RecipientHeading | SenderHeading | TransactionNoLine | Plain

  function KindOf(line: string): LineKind {
    if Test(line, RecipientDetails) then RecipientHeading
    else if Test(line, SenderDetails) then SenderHeading
    else if Test(line, TransactionNo) then TransactionNoLine
    else Plain
  }

  datatype Section = Recipient | Sender

  predicate Opens(kind: LineKind, section: Section) {
    (kind == RecipientHeading && section == Recipient) || (kind == SenderHeading && section == Sender)
  }

  /** The scan is inside `section` when it reaches line `j`: an earlier line opened the section
      and every line since then has been a plain line. */
  predicate InSection(lines: seq<string>, j: int, section: Section)
    requires j <= |lines|
  {
    OpenAt(Kinds(lines), j, section)
  }

  function Kinds(lines: seq<string>): (r: seq<LineKind>)
    ensures |r| == |lines| && forall k | 0 <= k < |lines| :: r[k] == KindOf(lines[k])
  {
    seq(|lines|, k requires 0 <= k < |lines| => KindOf(lines[k]))
  }

  /** Some line before `j` opened `section` and every line since then is plain. */
  predicate OpenAt(kinds: seq<LineKind>, j: int, section: Section)
    requires j <= |kinds|
  {
    exists i | 0 <= i < j :: Opens(kinds[i], section) && forall k | i < k < j :: kinds[k] == Plain
  }

  /** Line `j` is appended to the text gathered for `section`. */
  predicate Collected(lines: seq<string>, j: int, section: Section)
    requires 0 <= j < |lines|
  {
    KindOf(lines[j]) == Plain && InSection(lines, j, section) && Trim(lines[j]) != ""
  }

  /** Which lines are collected for `section`, line by line. */
  function CollectedFlags(lines: seq<string>, section: Section): (r: seq<bool>)
    ensures |r| == |lines|
    ensures forall j | 0 <= j < |lines| :: r[j] == Collected(lines, j, section)
  {
    seq(|lines|, j requires 0 <= j < |lines| => Collected(lines, j, section))
  }

  /** The first `n` lines whose flag is set, each followed by a space, run together. */
  function Gather(lines: seq<string>, flags: seq<bool>, n: nat): (r: string)
    requires n <= |lines| && n <= |flags|
    ensures r == [] || r[|r| - 1] == ' '
  {
    if n == 0 then ""
    else Gather(lines, flags, n - 1) + (if flags[n - 1] then lines[n - 1] + " " else "")
  }

  /** The text gathered for `section` from the first `n` lines. */
  function SectionText(lines: seq<string>, n: nat, section: Section): string
    requires n <= |lines|
  {
    Gather(lines, CollectedFlags(lines, section), n)
  }

  /** One line moves the scan into a section exactly when it opens it, and keeps it there
      exactly when it is a plain line. */
  lemma InSectionStep(lines: seq<string>, n: nat, section: Section)
    requires n < |lines|
    ensures InSection(lines, n + 1, section)
        <==> Opens(KindOf(lines[n]), section) || (KindOf(lines[n]) == Plain && InSection(lines, n, section))
  {
    OpenAtStep(Kinds(lines), n, section);
  }

  lemma OpenAtStep(kinds: seq<LineKind>, n: nat, section: Section)
    requires n < |kinds|
    ensures OpenAt(kinds, n + 1, section) <==> Opens(kinds[n], section) || (kinds[n] == Plain && OpenAt(kinds, n, section))
  {
    if OpenAt(kinds, n + 1, section) && !Opens(kinds[n], section) {
      var i :| 0 <= i < n + 1 && Opens(kinds[i], section) && forall k | i < k < n + 1 :: kinds[k] == Plain;
      assert i < n;
      assert kinds[n] == Plain;
      assert OpenAt(kinds, n, section);
    }
    if Opens(kinds[n], section) {
      assert OpenAt(kinds, n + 1, section);
    }
    if kinds[n] == Plain && OpenAt(kinds, n, section) {
      var i :| 0 <= i < n && Opens(kinds[i], section) && forall k | i < k < n :: kinds[k] == Plain;
      assert forall k | i < k < n + 1 :: kinds[k] == Plain;
    }
  }

  /** The loop over the receipt's lines that flips `inRecipientSection` and `inSenderSection` and
      appends each non-blank line of the open section to `recipientInfo` or `senderInfo`. */
  method ScanSections(lines: seq<string>) returns (recipientInfo: string, senderInfo: string)
    ensures recipientInfo == SectionText(lines, |lines|, Recipient)
    ensures senderInfo == SectionText(lines, |lines|, Sender)
  {
    var inRecipientSection := false;
    var inSenderSection := false;
    recipientInfo, senderInfo := "", "";
    // the outcome of the loop's three tests on each line, in the order it makes them
    var kinds := Kinds(lines);
    for n := 0 to |lines|
      invariant inRecipientSection == InSection(lines, n, Recipient)
      invariant inSenderSection == InSection(lines, n, Sender)
      invariant recipientInfo == SectionText(lines, n, Recipient)
      invariant senderInfo == SectionText(lines, n, Sender)
    {
      var line, kind := lines[n], kinds[n];
      assert InSection(lines, n + 1, Recipient) <==> Opens(kind, Recipient) || (kind == Plain && InSection(lines, n, Recipient)) by {
        InSectionStep(lines, n, Recipient);
      }
      assert InSection(lines, n + 1, Sender) <==> Opens(kind, Sender) || (kind == Plain && InSection(lines, n, Sender)) by {
        InSectionStep(lines, n, Sender);
      }
      assert SectionText(lines, n + 1, Recipient) == recipientInfo + (if kind == Plain && inRecipientSection && Trim(line) != "" then line + " " else "") by {
        SectionTextStep(lines, n, Recipient);
      }
      assert SectionText(lines, n + 1, Sender) == senderInfo + (if kind == Plain && inSenderSection && Trim(line) != "" then line + " " else "") by {
        SectionTextStep(lines, n, Sender);
      }
      if kind == RecipientHeading {
        inRecipientSection := true;
        inSenderSection := false;
        continue;
      }
      if kind == SenderHeading {
        inSenderSection := true;
        inRecipientSection := false;
        continue;
      }
      if kind == TransactionNoLine {
        inRecipientSection := false;
        inSenderSection := false;
      }
      if inRecipientSection && Trim(line) != "" {
        recipientInfo := recipientInfo + (line + " ");
      }
      if inSenderSection && Trim(line) != "" {
        senderInfo := senderInfo + (line + " ");
      }
    }
  }

  /** The text gathered for a section grows by line `n` exactly when that line is collected. */
  lemma SectionTextStep(lines: seq<string>, n: nat, section: Section)
    requires n < |lines|
    ensures SectionText(lines, n + 1, section)
      == SectionText(lines, n, section) + (if Collected(lines, n, section) then lines[n] + " " else "")
  {
  }

  // ----------------------------------------------------------------------------------------
  // isDebitTransaction: the cascade

  /** The words of `businessPatterns`, each tested as a whole word. */
  const BusinessWords: seq<string> := [
    "ltd", "limited", "intl", "international", "partnership", "company", "enterprise",
    "ventures", "group", "inc", "corporation", "ac", "account"
  ]

  predicate HasBusinessWord(s: string) {
    exists k | 0 <= k < |BusinessWords| :: HasWordCI(s, BusinessWords[k])
  }

  const CriticalKeywords: seq<string> := ["debit", "dr"]

  const DebitKeywords: seq<string> := [
    "debited", "withdrawal", "withdraw", "transferred", "transfer from your", "payment to",
    "paid to", "sent to", "deducted", "charged"
  ]

  /** Both section labels appear, as the two `indexOf` calls check. */
  predicate MentionsBothSections(text: string) {
    Includes(Lower(text), "sender details") && Includes(Lower(text), "recipient details")
  }

  /** The stage that reads the receipt's sections: a business word among the recipient's lines. */
  predicate SectionStage(text: string) {
    var lines := Split(text, '\n');
    MentionsBothSections(text) && HasBusinessWord(SectionText(lines, |lines|, Recipient))
  }

  predicate HasCriticalKeyword(text: string) {
    exists k | 0 <= k < |CriticalKeywords| :: HasWordCI(text, CriticalKeywords[k])
  }

  predicate HasDebitKeyword(text: string) {
    exists k | 0 <= k < |DebitKeywords| :: Includes(Lower(text), DebitKeywords[k])
  }

  /** The debit decision: each stage can only answer "debit", and no stage answering means income. */
  predicate IsDebit(text: string)
    ensures HasWordCI(text, "debit") || HasWordCI(text, "dr") ==> IsDebit(text)
    ensures !MentionsBothSections(text) ==> (IsDebit(text) <==> HasCriticalKeyword(text) || HasDebitKeyword(text))
  {
    assert CriticalKeywords[0] == "debit" && CriticalKeywords[1] == "dr";
    SectionStage(text) || HasCriticalKeyword(text) || HasDebitKeyword(text)
  }

  /** `isDebitTransaction(text)`: the section scan, then the whole-word veto words, then the
      keyword list, each returning early. */
  method IsDebitTransaction(text: string) returns (debit: bool)
    ensures debit == IsDebit(text)
  {
    var lowerText := Lower(text);
    if Includes(lowerText, "sender details") && Includes(lowerText, "recipient details") {
      var recipientInfo, senderInfo := ScanSections(Split(text, '\n'));
      if HasBusinessWord(recipientInfo) {
        return true;
      }
    }
    for k := 0 to |CriticalKeywords|
      invariant forall j | 0 <= j < k :: !HasWordCI(text, CriticalKeywords[j])
    {
      if HasWordCI(text, CriticalKeywords[k]) {
        return true;
      }
    }
    for k := 0 to |DebitKeywords|
      invariant !HasCriticalKeyword(text)
      invariant forall j | 0 <= j < k :: !Includes(lowerText, DebitKeywords[j])
    {
      if Includes(lowerText, DebitKeywords[k]) {
        return true;
      }
    }
    return false;
  }

  lemma BusinessWordsAreWords()
    ensures forall k | 0 <= k < |BusinessWords| :: IsWord(BusinessWords[k])
  {
  }

  /** A whole word is found in the gathered text exactly when one of the gathered lines holds
      it. */
  lemma {:induction false} GatherWord(lines: seq<string>, flags: seq<bool>, n: nat, w: string)
    requires n <= |lines| && n <= |flags| && IsWord(w)
    ensures HasWordCI(Gather(lines, flags, n), w) <==> exists j | 0 <= j < n :: flags[j] && HasWordCI(lines[j], w)
  {
    if n > 0 {
      var before := Gather(lines, flags, n - 1);
      assert HasWordCI(before, w) <==> exists j | 0 <= j < n - 1 :: flags[j] && HasWordCI(lines[j], w) by {
        GatherWord(lines, flags, n - 1, w);
      }
      assert HasWordCI(Gather(lines, flags, n), w)
          <==> HasWordCI(before, w) || (flags[n - 1] && HasWordCI(lines[n - 1], w)) by {
        GatherWordStep(before, lines[n - 1], flags[n - 1], w);
      }
      if exists j | 0 <= j < n :: flags[j] && HasWordCI(lines[j], w) {
        var j :| 0 <= j < n && flags[j] && HasWordCI(lines[j], w);
        if j < n - 1 {
          assert HasWordCI(before, w);
        }
      }
    }
  }

  /** One step of the gathering: a whole word is in the grown text exactly when it was in the
      text before or is in the line appended. */
  lemma GatherWordStep(before: string, line: string, collected: bool, w: string)
    requires IsWord(w)
    requires before == [] || before[|before| - 1] == ' '
    ensures HasWordCI(before + (if collected then line + " " else ""), w)
        <==> HasWordCI(before, w) || (collected && HasWordCI(line, w))
  {
    if collected {
      HasWordConcat(before, line + " ", w);
      HasWordAppend(line, ' ', w);
    } else {
      assert before + "" == before;
    }
  }

  /** A business word is found in the gathered text exactly when one of the collected lines
      holds one as a whole word. */
  lemma SectionTextBusinessWord(lines: seq<string>, n: nat, section: Section)
    requires n <= |lines|
    ensures HasBusinessWord(SectionText(lines, n, section))
        <==> exists j | 0 <= j < n :: Collected(lines, j, section) && HasBusinessWord(lines[j])
  {
    BusinessWordsAreWords();
    forall k | 0 <= k < |BusinessWords| {
      GatherWord(lines, CollectedFlags(lines, section), n, BusinessWords[k]);
    }
  }

  /** Some non-blank line of a recipient section holds a business word as a whole word. */
  predicate RecipientLineWithBusinessWord(lines: seq<string>) {
    exists j | 0 <= j < |lines| :: Collected(lines, j, Recipient) && HasBusinessWord(lines[j])
  }

  /** The debit cascade in the terms of the receipt: a debit when both section labels appear and
      some non-blank line of a recipient section holds a business word, or when `debit` or `dr`
      occurs as a whole word, or when a debit phrase occurs; income otherwise. */
  lemma DebitCascade(text: string)
    ensures IsDebit(text) <==>
      (MentionsBothSections(text) && RecipientLineWithBusinessWord(Split(text, '\n')))
      || HasWordCI(text, "debit") || HasWordCI(text, "dr")
      || HasDebitKeyword(text)
  {
    var lines := Split(text, '\n');
    SectionTextBusinessWord(lines, |lines|, Recipient);
    assert SectionStage(text) <==> MentionsBothSections(text) && RecipientLineWithBusinessWord(lines);
    CriticalKeywordsSpelledOut(text);
  }

  lemma CriticalKeywordsSpelledOut(text: string)
    ensures HasCriticalKeyword(text) <==> HasWordCI(text, "debit") || HasWordCI(text, "dr")
  {
    assert CriticalKeywords[0] == "debit" && CriticalKeywords[1] == "dr";
  }

  // ----------------------------------------------------------------------------------------
  // extractAmount

  /** The four patterns of `extractAmount`, in the order they are tried. */
  datatype AmountPattern =
    | CurrencyPrefixed   // /(?:NGN|N|₦)\s*([\d,]+(?:\.\d{2})?)/i
    | Labelled           // /(?:amount|amt|sum)[\s:]*(?:NGN|N|₦)?\s*([\d,]+(?:\.\d{2})?)/i
    | VerbAnchored       // /(?:debited|credited|received|sent|paid)[\s:]*(?:NGN|N|₦)?\s*([\d,]+(?:\.\d{2})?)/i
    | CurrencySuffixed   // /([\d,]+(?:\.\d{2})?)\s*(?:NGN|naira)/i

  const AmountPatterns: seq<AmountPattern> := [CurrencyPrefixed, Labelled, VerbAnchored, CurrencySuffixed]

  const Currencies: seq<string> := ["ngn", "n", "₦"]

  /** `\s*([\d,]+(?:\.\d{2})?)` from index `q`. */
  function SpacedAmount(s: string, q: nat): (r: Option<string>)
    ensures r.Some? ==> AmountShape(r.value)
  {
    if q <= |s| then GroupedAmount(s, Span(s, q, Space)) else None
  }

  /** `(?:NGN|N|₦)?\s*([\d,]+(?:\.\d{2})?)` from index `p`: a currency when one fits, else none.
      Giving back characters of the `[\s:]*` run before `p` can never produce a match that this
      does not, so the run is taken whole. */
  function OptionalCurrencyAmount(s: string, p: nat): (r: Option<string>)
    ensures r.Some? ==> AmountShape(r.value)
  {
    var withCurrency := FirstAlt(s, p, Currencies, (q: nat) => SpacedAmount(s, q));
    if withCurrency.Some? then withCurrency else SpacedAmount(s, p)
  }

  /** `[\s:]*(?:NGN|N|₦)?\s*([\d,]+(?:\.\d{2})?)` from index `p`. */
  function LabelledAmount(s: string, p: nat): (r: Option<string>)
    ensures r.Some? ==> AmountShape(r.value)
  {
    if p <= |s| then OptionalCurrencyAmount(s, Span(s, p, SpaceOrColon)) else None
  }

  /** `(?:NGN|N|₦)\s*([\d,]+(?:\.\d{2})?)` at index `i`. */
  function CurrencyThenAmount(s: string, i: nat): (r: Option<string>)
    ensures r.Some? ==> i < |s| && AmountShape(r.value)
  {
    FirstAlt(s, i, Currencies, (q: nat) => SpacedAmount(s, q))
  }

  /** `(?:amount|amt|sum)[\s:]*(?:NGN|N|₦)?\s*([\d,]+(?:\.\d{2})?)` at index `i`. */
  function LabelThenAmount(s: string, i: nat): (r: Option<string>)
    ensures r.Some? ==> i < |s| && AmountShape(r.value)
  {
    FirstAlt(s, i, ["amount", "amt", "sum"], (p: nat) => LabelledAmount(s, p))
  }

  /** `(?:debited|credited|received|sent|paid)[\s:]*(?:NGN|N|₦)?\s*([\d,]+(?:\.\d{2})?)` at
      index `i`. */
  function VerbThenAmount(s: string, i: nat): (r: Option<string>)
    ensures r.Some? ==> i < |s| && AmountShape(r.value)
  {
    FirstAlt(s, i, ["debited", "credited", "received", "sent", "paid"], (p: nat) => LabelledAmount(s, p))
  }

  /** `([\d,]+(?:\.\d{2})?)\s*(?:NGN|naira)` at index `i`. */
  function AmountThenCurrency(s: string, i: nat): (r: Option<string>)
    ensures r.Some? ==> i < |s| && AmountShape(r.value)
  {
    match GroupedAmount(s, i)
    case None => None
    case Some(c) =>
      var f := Span(s, i + |c|, Space);
      if AtCI(s, f, "ngn") || AtCI(s, f, "naira") then Some(c) else None
  }

  /** The capture of `pattern` when it matches at index `i`. */
  function AmountCaptureAt(pattern: AmountPattern, s: string, i: nat): (r: Option<string>)
    ensures r.Some? ==> i < |s| && AmountShape(r.value)
  {
    match pattern
    case CurrencyPrefixed => CurrencyThenAmount(s, i)
    case Labelled => LabelThenAmount(s, i)
    case VerbAnchored => VerbThenAmount(s, i)
    case CurrencySuffixed => AmountThenCurrency(s, i)
  }

  /** `text.match(pattern)[1]`. */
  function AmountCapture(pattern: AmountPattern, text: string): (r: Option<string>)
    ensures r.Some? ==> AmountShape(r.value)
  {
    Leftmost(text, (i: nat) => AmountCaptureAt(pattern, text, i), 0)
  }

  /** What `pattern` contributes: its capture without commas, parsed, if that is a positive
      number; `None` sends the search on to the next pattern. */
  function PatternAmount(pattern: AmountPattern, text: string): (r: Option<real>)
    ensures r.Some? ==> r.value > 0.0
    ensures r.Some? ==> (AmountCapture(pattern, text).Some?
      && r == ParseFloat(StripCommas(AmountCapture(pattern, text).value)))
  {
    match AmountCapture(pattern, text)
    case None => None
    case Some(c) =>
      var amount := ParseFloat(StripCommas(c));
      if amount.Some? && amount.value > 0.0 then amount else None
  }

  /** What each pattern yields, in the order they are tried. */
  function PatternAmounts(text: string): (r: seq<Option<real>>)
    ensures |r| == |AmountPatterns|
    ensures forall k | 0 <= k < |r| :: r[k] == PatternAmount(AmountPatterns[k], text)
  {
    seq(|AmountPatterns|, k requires 0 <= k < |AmountPatterns| => PatternAmount(AmountPatterns[k], text))
  }

  /** The amount of the alert: the first amount a pattern yields. */
  function AmountOf(text: string): (r: Option<real>)
    ensures r.Some? ==> r.value > 0.0
    ensures r.Some? <==> exists k | 0 <= k < |AmountPatterns| :: PatternAmount(AmountPatterns[k], text).Some?
  {
    FirstFrom(PatternAmounts(text), 0)
  }

  /** One pass of the loop in `extractAmount`: match `pattern`, strip the commas from its
      capture, and keep the number only when it parses and is positive. */
  method TryPattern(pattern: AmountPattern, text: string) returns (amount: Option<real>)
    ensures amount == PatternAmount(pattern, text)
  {
    amount := None;
    var m := AmountCapture(pattern, text);
    if m.Some? {
      var amountStr := StripCommas(m.value);
      var value := ParseFloat(amountStr);
      if value.Some? && value.value > 0.0 {
        amount := value;
      }
    }
  }

  /** `extractAmount(text)`. */
  method ExtractAmount(text: string) returns (amount: Option<real>)
    ensures amount == AmountOf(text)
  {
    ghost var amounts := PatternAmounts(text);
    for k := 0 to |AmountPatterns|
      invariant FirstFrom(amounts, k) == AmountOf(text)
    {
      var value := TryPattern(AmountPatterns[k], text);
      assert value == amounts[k];
      if value.Some? {
        return value;
      }
    }
    return None;
  }

  /** A pattern whose number is missing, zero or not a number hands over to the next one: once
      the patterns before `k` have yielded nothing, the amount is whatever the rest yield. */
  lemma AmountFallsThrough(text: string, k: nat)
    requires k <= |AmountPatterns|
    requires forall j | 0 <= j < k :: PatternAmount(AmountPatterns[j], text).None?
    ensures AmountOf(text) == FirstFrom(PatternAmounts(text), k)
  {
    var amounts := PatternAmounts(text);
    forall j | 0 <= j < k
      ensures amounts[j].None?
    {
      assert amounts[j] == PatternAmount(AmountPatterns[j], text);
    }
    FirstFromSkips(amounts, k);
  }

  // ----------------------------------------------------------------------------------------
  // extractBankName

  /** `bankPatterns`, in declaration order: each canonical name with the alternatives of its
      case-insensitive pattern. */
  const BankPatterns: seq<(string, seq<Alt>)> := [
    ("GTBank", [Gap("gt", 0, "bank"), Lit("guaranty trust"), Lit("gtb")]),
    ("Access Bank", [Gap("access", 0, "bank")]),
    ("First Bank", [Gap("first", 0, "bank"), Lit("fbn")]),
    ("UBA", [Lit("uba"), Lit("united bank for africa")]),
    ("Zenith Bank", [Gap("zenith", 0, "bank")]),
    ("Ecobank", [Lit("ecobank")]),
    ("Stanbic IBTC", [Lit("stanbic"), Lit("ibtc")]),
    ("Fidelity Bank", [Gap("fidelity", 0, "bank")]),
    ("Union Bank", [Gap("union", 0, "bank")]),
    ("Sterling Bank", [Gap("sterling", 0, "bank")]),
    ("Polaris Bank", [Gap("polaris", 0, "bank")]),
    ("Wema Bank", [Gap("wema", 0, "bank")]),
    ("Keystone Bank", [Gap("keystone", 0, "bank")]),
    ("FCMB", [Lit("fcmb"), Lit("first city monument")]),
    ("Opay", [Lit("opay"), Lit("owealth")]),
    ("Kuda", [Gap("kuda", 0, "bank"), Lit("kuda")]),
    ("PalmPay", [Lit("palmpay")]),
    ("Moniepoint", [Lit("moniepoint")])
  ]

  /** The canonical name of the first entry from index `k` on whose pattern matches, or `None`. */
  function BankFrom(text: string, k: nat): (r: Option<string>)
    ensures r.Some? ==>
      exists m | k <= m < |BankPatterns| ::
        r.value == BankPatterns[m].0 && Test(text, BankPatterns[m].1)
        && forall j | k <= j < m :: !Test(text, BankPatterns[j].1)
    ensures r.None? <==> forall m | k <= m < |BankPatterns| :: !Test(text, BankPatterns[m].1)
    decreases |BankPatterns| - k
  {
    if k >= |BankPatterns| then None
    else if Test(text, BankPatterns[k].1) then Some(BankPatterns[k].0)
    else BankFrom(text, k + 1)
  }

  function BankOf(text: string): (r: Option<string>)
    ensures r.None? <==> forall m | 0 <= m < |BankPatterns| :: !Test(text, BankPatterns[m].1)
    ensures r.Some? ==>
      exists m | 0 <= m < |BankPatterns| ::
        r.value == BankPatterns[m].0 && Test(text, BankPatterns[m].1)
        && forall j | 0 <= j < m :: !Test(text, BankPatterns[j].1)
  {
    BankFrom(text, 0)
  }

  /** `extractBankName(text)`. */
  method ExtractBankName(text: string) returns (bank: Option<string>)
    ensures bank == BankOf(text)
  {
    for k := 0 to |BankPatterns|
      invariant BankFrom(text, k) == BankOf(text)
    {
      var (bankName, pattern) := BankPatterns[k];
      if Test(text, pattern) {
        return Some(bankName);
      }
    }
    return None;
  }

  /** Table order decides between banks: whenever the GTBank pattern matches, GTBank is the bank,
      whatever else (Access Bank, say) the text mentions. */
  lemma GTBankComesFirst(text: string)
    requires Test(text, BankPatterns[0].1)
    ensures BankOf(text) == Some("GTBank")
  {
  }

  // ----------------------------------------------------------------------------------------
  // extractDescription

  /** The trimmed non-blank pieces: `text.split('\n').map(l => l.trim()).filter(Boolean)`. */
  function NonBlankLines(pieces: seq<string>): (r: seq<string>)
    ensures forall k | 0 <= k < |r| :: StartsFilled(r[k])
  {
    if |pieces| == 0 then []
    else
      var line := Trim(pieces[0]);
      if line == "" then NonBlankLines(pieces[1..]) else [line] + NonBlankLines(pieces[1..])
  }

  /** No line is left exactly when every piece is blank. */
  lemma {:induction false} NonBlankLinesEmpty(pieces: seq<string>)
    ensures NonBlankLines(pieces) == [] <==> forall k | 0 <= k < |pieces| :: Blank(pieces[k])
  {
    if |pieces| > 0 {
      NonBlankLinesEmpty(pieces[1..]);
      assert forall k | 1 <= k < |pieces| :: pieces[k] == pieces[1..][k - 1];
    }
  }

  /** A line that trims to nothing. */
  predicate Blank(line: string) {
    Trim(line) == ""
  }

  /** A non-empty line that does not start with white space. */
  predicate StartsFilled(line: string) {
    line != "" && !IsSpace(line[0])
  }

  /** `[\s:]+(.+)` from index `p`. */
  function LabelRest(s: string, p: nat): Option<string> {
    if p > |s| then None
    else
      var e := Span(s, p, SpaceOrColon);
      if e == p then None
      else
        match LastInClass(s, p + 1, e, NotLineTerminator)
        case None => None
        case Some(j) => Some(s[j..LineEnd(s, j)])
  }

  function CounterpartyRest(s: string, p: nat): Option<string> {
    if p > |s| then None
    else
      var e := Span(s, p, SpaceOrColon);
      if e == p then None else LazyCaptureFrom(s, p + 1, e, WordOrEnd(["acct", "account", "on"]))
  }

  /** The two patterns of `extractDescription`, in the order they are tried. */
  datatype DescriptionPattern =
    | NarrationLabel   // /(?:desc|description|narration|details)[\s:]+(.+)/i
    | Counterparty     // /(?:to|from)[\s:]+(.+?)(?:acct|account|on|$)/i

  function DescriptionCaptureAt(pattern: DescriptionPattern, s: string, i: nat): Option<string> {
    match pattern
    case NarrationLabel =>
      FirstAlt(s, i, ["desc", "description", "narration", "details"], (p: nat) => LabelRest(s, p))
    case Counterparty => FirstAlt(s, i, ["to", "from"], (p: nat) => CounterpartyRest(s, p))
  }

  function DescriptionCapture(pattern: DescriptionPattern, text: string): Option<string> {
    Leftmost(text, (i: nat) => DescriptionCaptureAt(pattern, text, i), 0)
  }

  /** The capture of the first description pattern that matches. */
  function PatternDescription(text: string): Option<string> {
    FirstSome([NarrationLabel, Counterparty], (p: DescriptionPattern) => DescriptionCapture(p, text))
  }

  /** `extractDescription(text, bank)`: the trimmed capture of the first pattern that matches,
      else the first non-blank line cut to 100 characters, else `None`. Every capture is
      non-empty, so the `match[1]` test never rejects one. */
  function ExtractDescription(text: string): (r: Option<string>)
    ensures r.None? ==> NonBlankLines(Split(text, '\n')) == []
    ensures r.Some? ==> r.value == [] || !IsSpace(r.value[0])
  {
    var lines := NonBlankLines(Split(text, '\n'));
    match PatternDescription(text)
    case Some(c) => Some(Trim(c))
    case None => if |lines| > 0 then Some(Take(lines[0], 100)) else None
  }

  /** A label capture decides, whatever the to/from pattern would capture. */
  lemma LabelDecides(text: string)
    requires DescriptionCapture(NarrationLabel, text).Some?
    ensures ExtractDescription(text) == Some(Trim(DescriptionCapture(NarrationLabel, text).value))
  {
    var f := (p: DescriptionPattern) => DescriptionCapture(p, text);
    assert f([NarrationLabel, Counterparty][0]).Some?;
  }

  /** Without a label, a to/from capture decides over the first line. */
  lemma CounterpartyDecides(text: string)
    requires DescriptionCapture(NarrationLabel, text).None?
    requires DescriptionCapture(Counterparty, text).Some?
    ensures ExtractDescription(text) == Some(Trim(DescriptionCapture(Counterparty, text).value))
  {
    var f := (p: DescriptionPattern) => DescriptionCapture(p, text);
    assert f([NarrationLabel, Counterparty][0]).None? && f([NarrationLabel, Counterparty][1]).Some?;
  }

  /** With neither capture, the description is the first non-blank line, cut to 100 characters. */
  lemma FirstLineFallback(text: string)
    requires DescriptionCapture(NarrationLabel, text).None?
    requires DescriptionCapture(Counterparty, text).None?
    requires NonBlankLines(Split(text, '\n')) != []
    ensures var first := NonBlankLines(Split(text, '\n'))[0];
      var r := ExtractDescription(text);
      && r.Some? && |r.value| <= 100 && r.value == first[..|r.value|]
      && (|first| <= 100 ==> r.value == first)
      && (|first| > 100 ==> |r.value| == 100)
  {
    var f := (p: DescriptionPattern) => DescriptionCapture(p, text);
    assert f([NarrationLabel, Counterparty][0]).None? && f([NarrationLabel, Counterparty][1]).None?;
  }

  /** Both patterns start with a letter, so a text whose every line is blank matches neither. */
  lemma PatternNeedsNonBlankLine(text: string)
    ensures PatternDescription(text).Some? ==> NonBlankLines(Split(text, '\n')) != []
  {
    var pieces := Split(text, '\n');
    if NonBlankLines(pieces) == [] {
      NonBlankLinesEmpty(pieces);
      BlankLinesAreSpace(text);
      SpaceHasNoCapture(text, NarrationLabel);
      SpaceHasNoCapture(text, Counterparty);
    }
  }

  /** Neither pattern captures anything in a text of white space. */
  lemma SpaceHasNoCapture(text: string, p: DescriptionPattern)
    requires forall i | 0 <= i < |text| :: IsSpace(text[i])
    ensures DescriptionCapture(p, text).None?
  {
    forall i: nat
      ensures DescriptionCaptureAt(p, text, i).None?
    {
      SpaceHasNoCaptureAt(text, p, i);
    }
  }

  lemma SpaceHasNoCaptureAt(text: string, p: DescriptionPattern, i: nat)
    requires forall i | 0 <= i < |text| :: IsSpace(text[i])
    ensures DescriptionCaptureAt(p, text, i).None?
  {
    match p
    case NarrationLabel =>
      NoAltInSpace(text, i, ["desc", "description", "narration", "details"], (q: nat) => LabelRest(text, q));
    case Counterparty =>
      NoAltInSpace(text, i, ["to", "from"], (q: nat) => CounterpartyRest(text, q));
  }

  /** A text whose every line is blank is all white space. */
  lemma BlankLinesAreSpace(text: string)
    requires forall k | 0 <= k < |Split(text, '\n')| :: Blank(Split(text, '\n')[k])
    ensures forall i | 0 <= i < |text| :: IsSpace(text[i])
  {
    var pieces := Split(text, '\n');
    forall i | 0 <= i < |text|
      ensures IsSpace(text[i])
    {
      var c := text[i];
      if c != '\n' {
        SplitCovers(text, '\n', c);
        var k :| 0 <= k < |pieces| && c in pieces[k];
        TrimEmpty(pieces[k]);
        var j :| 0 <= j < |pieces[k]| && pieces[k][j] == c;
      }
    }
  }

  /** No alternative starting with a lower-case letter occurs in a text of white space. */
  lemma NoAltInSpace(s: string, i: nat, alts: seq<string>, rest: nat -> Option<string>)
    requires forall j | 0 <= j < |s| :: IsSpace(s[j])
    requires forall k | 0 <= k < |alts| :: |alts[k]| > 0 && IsLowerAscii(alts[k][0])
    ensures FirstAlt(s, i, alts, rest).None?
  {
    forall k | 0 <= k < |alts|
      ensures !AtCI(s, i, alts[k])
    {
      if i < |s| {
        assert LowerChar(s[i]) != LowerChar(alts[k][0]);
      }
    }
  }

  /** There is no description exactly when every line of the text is blank: a pattern capture
      needs a letter, and any non-blank line is a fallback. */
  lemma NoDescriptionIffBlank(text: string)
    ensures ExtractDescription(text).None? <==> NonBlankLines(Split(text, '\n')) == []
    ensures ExtractDescription(text).None? ==> forall k | 0 <= k < |Split(text, '\n')| :: Blank(Split(text, '\n')[k])
    ensures (forall k | 0 <= k < |Split(text, '\n')| :: Blank(Split(text, '\n')[k])) ==> ExtractDescription(text).None?
  {
    var pieces := Split(text, '\n');
    NonBlankLinesEmpty(pieces);
    PatternNeedsNonBlankLine(text);
    if ExtractDescription(text).None? {
      assert NonBlankLines(pieces) == [];
    }
    if forall k | 0 <= k < |pieces| :: Blank(pieces[k]) {
      assert NonBlankLines(pieces) == [];
    }
  }

  // ----------------------------------------------------------------------------------------
  // parseBankAlert

  /** `parseBankAlert(text)`, with the date it stamps passed in. */
  function ParseBankAlert(text: string, today: string): (r: Option<ParsedAlert>)
    ensures r.Some? <==> text != "" && AmountOf(CleanForDetection(text)).Some?
    ensures r.Some? ==> r.value.amount > 0.0
  {
    if text == "" then None else ParseCleaned(CleanForDetection(text), today)
  }

  /** What `parseBankAlert` does once the text has been cleaned: no amount means no result, and
      otherwise every field has a value. */
  function ParseCleaned(cleanedText: string, today: string): (r: Option<ParsedAlert>)
    ensures r.Some? <==> AmountOf(cleanedText).Some?
    ensures r.Some? ==> r.value.amount > 0.0 && Some(r.value.amount) == AmountOf(cleanedText)
    ensures r.Some? ==> (r.value.txType == Expense <==> IsDebit(cleanedText))
    ensures r.Some? ==> r.value.description != ""
    ensures r.Some? ==> r.value.bank == UnknownBank || exists k | 0 <= k < |BankPatterns| :: r.value.bank == BankPatterns[k].0
    ensures r.Some? ==> r.value.bank == (if BankOf(cleanedText).Some? then BankOf(cleanedText).value else UnknownBank)
    ensures r.Some? ==> var d := ExtractDescription(cleanedText);
      && (d.Some? && d.value != "" ==> r.value.description == d.value)
      && (d.None? || d.value == "" ==>
            r.value.description == (if r.value.txType == Expense then "Bank debit" else "Bank credit"))
    ensures r.Some? ==> r.value.date == today
  {
    var isDebit := IsDebit(cleanedText);
    var amount := AmountOf(cleanedText);
    if amount.None? || amount.value <= 0.0 then None
    else
      var bank := BankOf(cleanedText);
      var description := ExtractDescription(cleanedText);
      Some(ParsedAlert(
        amount.value,
        if isDebit then Expense else Income,
        if description.Some? && description.value != "" then description.value
        else if isDebit then "Bank debit" else "Bank credit",
        if bank.Some? then bank.value else UnknownBank,
        today))
  }

  /** No pattern finds an amount in the empty text. */
  lemma AmountOfEmpty(s: string)
    requires s == []
    ensures AmountOf(s).None?
  {
    forall k | 0 <= k < |AmountPatterns|
      ensures PatternAmount(AmountPatterns[k], s).None?
    {
      assert AmountCaptureAt(AmountPatterns[k], s, 0).None?;
    }
  }

  /** Cleaning the text first changes nothing: the parser already works on the cleaned text, and
      cleaning is idempotent. */
  lemma ParseOfCleanedText(text: string, today: string)
    ensures ParseBankAlert(CleanForDetection(text), today) == ParseBankAlert(text, today)
  {
    var cleaned := CleanForDetection(text);
    CleanIdempotent(text);
    if text != "" && cleaned == "" {
      AmountOfEmpty(cleaned);
    }
  }

  /** The whole word `debit` anywhere in the kept lines makes the alert an expense, whatever else
      it says. */
  lemma DebitWordDominates(text: string, today: string)
    requires ParseBankAlert(text, today).Some?
    requires HasWordCI(CleanForDetection(text), "debit")
    ensures ParseBankAlert(text, today).value.txType == Expense
  {
    DebitCascade(CleanForDetection(text));
  }

  /** An alert without any debit signal in its kept lines is income. */
  lemma NoDebitSignalIsIncome(text: string, today: string)
    requires ParseBankAlert(text, today).Some?
    requires !HasWordCI(CleanForDetection(text), "debit") && !HasWordCI(CleanForDetection(text), "dr")
    requires !HasDebitKeyword(CleanForDetection(text))
    requires !MentionsBothSections(CleanForDetection(text))
    ensures ParseBankAlert(text, today).value.txType == Income
  {
    DebitCascade(CleanForDetection(text));
  }
}
