/**
 * The simulated assistant: `generateAIResponse` picks one of four canned
 * replies by case-insensitive keyword, first match wins, and a separate rule
 * decides whether the reply carries the fixed document-analysis summary.
 */
module Reply {
  import opened Wrappers
  import opened Text

  /** The four canned replies, named by the rule that selects them. */
  datatype Guidance = ContractGuidance | DocumentGuidance | PrivacyGuidance | GeneralGuidance

  const ContractReply: string := "When reviewing an employment contract, pay special attention to: compensation structure, termination clauses, non-compete agreements, intellectual property rights, and confidentiality provisions. I'd be happy to analyze specific clauses if you share the document."
  const DocumentReply: string := "I can help analyze various legal documents including contracts, agreements, policies, and more. Please upload the document and I'll provide a comprehensive summary with key findings and potential concerns."
  const PrivacyReply: string := "Recent data privacy regulations include updates to GDPR enforcement, new state privacy laws in California (CPRA), and emerging federal privacy legislation. Would you like me to elaborate on any specific privacy law or jurisdiction?"
  const FallbackReply: string := "I understand your question about legal matters. Based on current legal precedents and regulations, I can provide guidance on this topic. Could you provide more specific details about your situation so I can give you more targeted assistance?"

  /** The literal text of each canned reply. */
  function GuidanceText(g: Guidance): string {
    match g
    case ContractGuidance => ContractReply
    case DocumentGuidance => DocumentReply
    case PrivacyGuidance => PrivacyReply
    case GeneralGuidance => FallbackReply
  }

  /** The structured payload an assistant message may carry. */
  datatype DocumentSummary = DocumentSummary(title: string, summary: string, keyPoints: seq<string>)

  const AnalysisSummary: DocumentSummary := DocumentSummary(
    "Document Analysis Summary",
    "Based on the document provided, I've identified key terms and potential issues that require attention.",
    [ "Contract term: 2 years with automatic renewal clause",
      "Termination notice period: 30 days required",
      "Non-compete clause applies for 6 months post-termination",
      "Confidentiality obligations extend indefinitely" ])

  /** The chain of conditionals of `generateAIResponse`, over the lowercased input. */
  function Classify(input: string): Guidance {
    if Includes(ToLower(input), "contract") then ContractGuidance
    else if Includes(ToLower(input), "document") then DocumentGuidance
    else if Includes(ToLower(input), "privacy") then PrivacyGuidance
    else GeneralGuidance
  }

  /** `generateAIResponse(input)`: the text of the reply the first matching rule selects. */
  function GenerateAIResponse(input: string): string {
    GuidanceText(Classify(input))
  }

  /** Whether the delivered reply gets a `documentSummary` (its condition asks for "document" first, then "contract"). */
  predicate HasDocumentSummary(input: string) {
    Includes(ToLower(input), "document") || Includes(ToLower(input), "contract")
  }

  /** The `documentSummary` field of the reply to `input`, absent when the rule does not fire. */
  function SummaryFor(input: string): (r: Option<DocumentSummary>)
    ensures r.Some? <==> HasDocumentSummary(input)
    ensures r.Some? ==> r.value == AnalysisSummary && |r.value.keyPoints| == 4
  {
    if HasDocumentSummary(input) then Some(AnalysisSummary) else None
  }

  /** The four reply texts are pairwise different, so the text shown identifies the rule that fired. */
  lemma GuidanceTextInjective(g: Guidance, h: Guidance)
    ensures GuidanceText(g) == GuidanceText(h) <==> g == h
  {
    // Long literals are told apart by their last two characters.
    assert ContractReply[|ContractReply| - 1] == '.' && ContractReply[|ContractReply| - 2] == 't';
    assert DocumentReply[|DocumentReply| - 1] == '.' && DocumentReply[|DocumentReply| - 2] == 's';
    assert PrivacyReply[|PrivacyReply| - 1] == '?' && PrivacyReply[|PrivacyReply| - 2] == 'n';
    assert FallbackReply[|FallbackReply| - 1] == '?' && FallbackReply[|FallbackReply| - 2] == 'e';
  }

  /**
   * The rules are tried in the order contract, document, privacy, and the first
   * keyword found in the lowercased input decides; each reply is chosen
   * exactly when its keyword is the first one present.
   */
  lemma ClassifyFirstMatch(input: string)
    ensures Classify(input) == ContractGuidance <==> Includes(ToLower(input), "contract")
    ensures Classify(input) == DocumentGuidance <==>
      !Includes(ToLower(input), "contract") && Includes(ToLower(input), "document")
    ensures Classify(input) == PrivacyGuidance <==>
      !Includes(ToLower(input), "contract") && !Includes(ToLower(input), "document") && Includes(ToLower(input), "privacy")
    ensures Classify(input) == GeneralGuidance <==>
      !Includes(ToLower(input), "contract") && !Includes(ToLower(input), "document") && !Includes(ToLower(input), "privacy")
  {
  }

  /** The same first-match rule stated on the reply text `generateAIResponse` returns. */
  lemma GenerateAIResponseFirstMatch(input: string)
    ensures GenerateAIResponse(input) == ContractReply <==> Includes(ToLower(input), "contract")
    ensures GenerateAIResponse(input) == DocumentReply <==>
      !Includes(ToLower(input), "contract") && Includes(ToLower(input), "document")
    ensures GenerateAIResponse(input) == PrivacyReply <==>
      !Includes(ToLower(input), "contract") && !Includes(ToLower(input), "document") && Includes(ToLower(input), "privacy")
    ensures GenerateAIResponse(input) == FallbackReply <==>
      !Includes(ToLower(input), "contract") && !Includes(ToLower(input), "document") && !Includes(ToLower(input), "privacy")
  {
    ClassifyFirstMatch(input);
    GuidanceTextInjective(Classify(input), ContractGuidance);
    GuidanceTextInjective(Classify(input), DocumentGuidance);
    GuidanceTextInjective(Classify(input), PrivacyGuidance);
    GuidanceTextInjective(Classify(input), GeneralGuidance);
  }

  /**
   * The summary rule agrees with the reply only through the keywords: a
   * summary is attached exactly when the contract or the document reply is
   * chosen, never with the privacy or the general reply.
   */
  lemma SummaryIffContractOrDocumentReply(input: string)
    ensures SummaryFor(input).Some? <==>
      Classify(input) == ContractGuidance || Classify(input) == DocumentGuidance
  {
  }

  /** One rule of the ordered rule table: a lowercase keyword and the reply it selects. */
  datatype Rule = Rule(keyword: string, reply: Guidance)

  /** The rules of `generateAIResponse` as data, in the order they are tried. */
  const Rules: seq<Rule> := [Rule("contract", ContractGuidance), Rule("document", DocumentGuidance), Rule("privacy", PrivacyGuidance)]

  /** Table-driven reference classifier: the reply of the first rule whose keyword occurs in `text`. */
  function FirstMatch(rules: seq<Rule>, text: string, fallback: Guidance): Guidance
    decreases |rules|
  {
    if rules == [] then fallback
    else if Includes(text, rules[0].keyword) then rules[0].reply
    else FirstMatch(rules[1..], text, fallback)
  }

  /** The first-match semantics of a rule table: the least matching index decides, else the fallback. */
  lemma {:induction false} FirstMatchIsLeastMatch(rules: seq<Rule>, text: string, fallback: Guidance)
    ensures (forall k :: 0 <= k < |rules| ==> !Includes(text, rules[k].keyword)) ==>
      FirstMatch(rules, text, fallback) == fallback
    ensures forall k :: 0 <= k < |rules| && Includes(text, rules[k].keyword) &&
                        (forall j :: 0 <= j < k ==> !Includes(text, rules[j].keyword))
                   ==> FirstMatch(rules, text, fallback) == rules[k].reply
    decreases |rules|
  {
    if rules != [] {
      FirstMatchIsLeastMatch(rules[1..], text, fallback);
      forall k | 0 <= k < |rules| && Includes(text, rules[k].keyword) &&
        (forall j :: 0 <= j < k ==> !Includes(text, rules[j].keyword))
        ensures FirstMatch(rules, text, fallback) == rules[k].reply
      {
        if k > 0 {
          assert rules[k] == rules[1..][k - 1];
          forall j | 0 <= j < k - 1 ensures !Includes(text, rules[1..][j].keyword) {
            assert rules[1..][j] == rules[j + 1];
          }
        }
      }
      if forall k :: 0 <= k < |rules| ==> !Includes(text, rules[k].keyword) {
        forall k | 0 <= k < |rules| - 1 ensures !Includes(text, rules[1..][k].keyword) {
          assert rules[1..][k] == rules[k + 1];
        }
      }
    }
  }

  /** The chain of conditionals is the rule table tried in order, with the general reply last. */
  lemma {:induction false} ClassifyIsRuleTable(input: string)
    ensures Classify(input) == FirstMatch(Rules, ToLower(input), GeneralGuidance)
  {
    var t := ToLower(input);
    var r1, r2 := Rules[1..], Rules[1..][1..];
    assert r1 == [Rule("document", DocumentGuidance), Rule("privacy", PrivacyGuidance)];
    assert r2 == [Rule("privacy", PrivacyGuidance)];
    assert r2[1..] == [];
    assert FirstMatch(r2, t, GeneralGuidance) == if Includes(t, "privacy") then PrivacyGuidance else GeneralGuidance;
    assert FirstMatch(r1, t, GeneralGuidance) ==
      if Includes(t, "document") then DocumentGuidance else FirstMatch(r2, t, GeneralGuidance);
  }

  /** Both rules ask the lowercased input, so upper-case spellings select the same reply and summary. */
  lemma {:induction false} CaseInsensitive(input: string)
    ensures Classify(ToLower(input)) == Classify(input)
    ensures SummaryFor(ToLower(input)) == SummaryFor(input)
  {
    ToLowerSpec(input);
  }

  /** A contract question gets the contract reply and a summary with four key points. */
  lemma ContractExample()
    ensures Classify("Can you review my contract?") == ContractGuidance
    ensures SummaryFor("Can you review my contract?").Some?
    ensures |SummaryFor("Can you review my contract?").value.keyPoints| == 4
  {
    var a := ToLower("Can you review my contract?");
    assert a == "can you review my contract?";
    assert a[18..26] == "contract";
    FoundIncluded(a, "contract", 18);
  }

  /** An upper-case keyword is lowercased before the match: "CONTRACT" gets the contract reply and the summary. */
  lemma UpperCaseContract()
    ensures Classify("CONTRACT") == ContractGuidance
    ensures SummaryFor("CONTRACT") == Some(AnalysisSummary)
  {
    var a := ToLower("CONTRACT");
    assert a == "contract";
    FoundIncluded(a, "contract", 0);
  }

  /** Privacy without contract or document: the privacy reply, and no summary. */
  lemma PrivacyAloneHasNoSummary(input: string)
    requires Includes(ToLower(input), "privacy")
    requires !Includes(ToLower(input), "contract") && !Includes(ToLower(input), "document")
    ensures Classify(input) == PrivacyGuidance && SummaryFor(input) == None
  {
  }

  /** "contract" outranks "privacy": an input with both gets the contract reply and the summary. */
  lemma ContractOutranksPrivacy(input: string)
    requires Includes(ToLower(input), "privacy") && Includes(ToLower(input), "contract")
    ensures Classify(input) == ContractGuidance && SummaryFor(input).Some?
  {
  }

  /** No keyword at all: the general reply, and no summary. */
  lemma NoKeywordGeneralReply(input: string)
    requires !Includes(ToLower(input), "contract") && !Includes(ToLower(input), "document")
    requires !Includes(ToLower(input), "privacy")
    ensures Classify(input) == GeneralGuidance && SummaryFor(input) == None
  {
  }
}
