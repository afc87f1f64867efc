/** The six records the page is seeded with, and what the selection rules make of them. */
module SampleCatalog {
  import opened Models
  import opened Selection
  import Text
  import Cards

  function Entries(rl: int, cg: int, ki: int, al: int, es: int, sa: int, tu: int, ce: int): seq<AttributeEntry>
  {
    [AttributeEntry("RL", "Reasoning & Logic", rl),
     AttributeEntry("CG", "Creativity & Generation", cg),
     AttributeEntry("KI", "Knowledge & Information", ki),
     AttributeEntry("AL", "Adaptability & Learning", al),
     AttributeEntry("ES", "Efficiency & Speed", es),
     AttributeEntry("SA", "Safety & Alignment", sa),
     AttributeEntry("TU", "Tool Use & Integration", tu),
     AttributeEntry("CE", "Communication & Empathy", ce)]
  }

  // The longer descriptions are written as joined pieces of the same text,
  // each short enough for the verifier to scan character by character.
  const ChatGpt := ModelRecord(1, "ChatGPT\U{00A0}4.1", "OpenAI", "05\U{2011}15\U{2011}2025",
    "Adaptive iOS\U{2011}" + "focused assistant " + "with bio tool.", 92, 1241, "avatars/chatgpt.png",
    Entries(95, 88, 93, 90, 87, 96, 92, 94), ["General Assistant", "Mobile Optimized"])
  const Claude := ModelRecord(2, "Claude\U{00A0}4\U{00A0}Sonnet", "Anthropic", "Latest",
    "Efficient everyday model with web search.", 89, 892, "avatars/claude.png",
    Entries(93, 85, 91, 88, 90, 95, 87, 92), ["General Assistant", "Academic"])
  const Gemini := ModelRecord(3, "Gemini\U{00A0}2.5\U{00A0}Pro", "Google", "04\U{2011}18\U{2011}2025",
    "Canvas and code " + "generation specialist.", 87, 503, "avatars/gemini.png",
    Entries(90, 92, 88, 85, 89, 86, 94, 83), ["Coder", "Multimodal"])
  const MistralNext := ModelRecord(4, "Mistral\U{00A0}Next", "Mistral", "05\U{2011}01\U{2011}2025",
    "Fast, multilingual " + "assistant tuned " + "for reliability.", 85, 341, "avatars/mistral.png",
    Entries(88, 84, 86, 83, 91, 88, 80, 82), ["General Assistant", "Multilingual"])
  const Perplexity := ModelRecord(5, "Perplexity\U{00A0}70B", "Perplexity", "04\U{2011}30\U{2011}2025",
    "Search\U{2011}augmented " + "conversational assistant.", 84, 217, "avatars/perplexity.png",
    Entries(82, 79, 90, 80, 86, 84, 78, 88), ["Search", "Conversational"])
  const Llama := ModelRecord(6, "Llama\U{00A0}3.1", "Meta", "05\U{2011}10\U{2011}2025",
    "Open source, multimodal " + "language model.", 83, 654, "avatars/meta.png",
    Entries(85, 88, 82, 80, 84, 87, 75, 86), ["Multimodal", "Open Source"])

  const Catalog: seq<ModelRecord> := [ChatGpt, Claude, Gemini, MistralNext, Perplexity, Llama]

  /** The eight codes of an attribute list are distinct, and scores in range stay in range. */
  lemma EntriesValid(rl: int, cg: int, ki: int, al: int, es: int, sa: int, tu: int, ce: int)
    requires InScoreRange(rl) && InScoreRange(cg) && InScoreRange(ki) && InScoreRange(al)
    requires InScoreRange(es) && InScoreRange(sa) && InScoreRange(tu) && InScoreRange(ce)
    ensures var e := Entries(rl, cg, ki, al, es, sa, tu, ce);
      && (forall k :: 0 <= k < |e| ==> InScoreRange(e[k].score))
      && (forall j, k :: 0 <= j < k < |e| ==> e[j].code != e[k].code)
  {
    var e := Entries(rl, cg, ki, al, es, sa, tu, ce);
    var tag := seq(8, k requires 0 <= k < 8 => (e[k].code[0], e[k].code[1]));
    assert tag == [('R', 'L'), ('C', 'G'), ('K', 'I'), ('A', 'L'), ('E', 'S'), ('S', 'A'), ('T', 'U'), ('C', 'E')];
    forall j, k | 0 <= j < k < |e|
      ensures e[j].code != e[k].code
    {
      assert tag[j] != tag[k];
    }
  }

  /** The seeded catalog keeps its scores in range and its identifiers distinct. */
  lemma CatalogIsValid()
    ensures ValidCatalog(Catalog)
  {
    EntriesValid(95, 88, 93, 90, 87, 96, 92, 94);
    EntriesValid(93, 85, 91, 88, 90, 95, 87, 92);
    EntriesValid(90, 92, 88, 85, 89, 86, 94, 83);
    EntriesValid(88, 84, 86, 83, 91, 88, 80, 82);
    EntriesValid(82, 79, 90, 80, 86, 84, 78, 88);
    EntriesValid(85, 88, 82, 80, 84, 87, 75, 86);
    assert forall k :: 0 <= k < |Catalog| ==> ValidRecord(Catalog[k]);
  }

  /** A string whose first characters lower-case to `p` lower-cases to a string starting with `p`. */
  lemma LowerPrefix(s: string, p: string)
    requires |p| <= |s|
    requires forall k :: 0 <= k < |p| ==> Text.LowerChar(s[k]) == p[k]
    ensures Text.ToLower(s)[..|p|] == p
  {
  }

  /** Where the characters of `s` from `i` on lower-case to `p`, `p` occurs in the lower-cased `s`. */
  lemma LowerOccursAt(s: string, i: nat, p: string)
    requires i + |p| <= |s|
    requires forall k :: 0 <= k < |p| ==> Text.LowerChar(s[i + k]) == p[k]
    ensures Text.OccursAt(Text.ToLower(s), p, i)
  {
    var window := Text.ToLower(s)[i..i + |p|];
    assert forall k :: 0 <= k < |p| ==> window[k] == p[k];
  }

  /** With the page's initial state every seeded record is shown, in the seeded order. */
  lemma InitialRenderShowsCatalog()
    ensures SelectVisible(Catalog, InitialState) == Catalog
  {
    SelectAllIsCatalog(Catalog);
  }

  /** A term occurring in a record's name, ignoring case, makes the search rule accept the record. */
  lemma NameHitMatches(m: ModelRecord, term: string, at: nat)
    requires |term| > 0
    requires Text.OccursAt(Text.ToLower(m.name), Text.ToLower(term), at)
    ensures MatchesSearch(m, term)
  {
  }

  /** "claude" occurs at the start of Claude 4 Sonnet's lower-cased name. */
  lemma ClaudeInName()
    ensures Text.OccursAt(Text.ToLower(Claude.name), "claude", 0)
  {
    var n := Claude.name;
    assert n[0] == 'C' && n[1] == 'l' && n[2] == 'a' && n[3] == 'u' && n[4] == 'd' && n[5] == 'e';
    LowerPrefix(n, "claude");
  }

  /** "CLAUDE" is one spelling of "claude". */
  lemma UpperClaudeLowers()
    ensures Text.ToLower("CLAUDE") == "claude"
  {
    var t := "CLAUDE";
    assert t[0] == 'C' && t[1] == 'L' && t[2] == 'A' && t[3] == 'U' && t[4] == 'D' && t[5] == 'E';
    LowerPrefix(t, "claude");
  }

  /** "sonnet" occurs at position 9 of Claude 4 Sonnet's lower-cased name. */
  lemma SonnetInName()
    ensures Text.OccursAt(Text.ToLower(Claude.name), "sonnet", 9)
  {
    var n := Claude.name;
    assert n[9] == 'S' && n[10] == 'o' && n[11] == 'n' && n[12] == 'n' && n[13] == 'e' && n[14] == 't';
    LowerOccursAt(n, 9, "sonnet");
  }

  lemma SonnetLowers()
    ensures Text.ToLower("sonnet") == "sonnet"
  {
    var t := "sonnet";
    assert t[0] == 's' && t[1] == 'o' && t[2] == 'n' && t[3] == 'n' && t[4] == 'e' && t[5] == 't';
    LowerPrefix(t, "sonnet");
  }

  /** `x` is immediately followed by `y` somewhere in `s`, once `s` is lower-cased. */
  ghost predicate HasLowerPair(s: string, x: char, y: char)
  {
    exists i :: 0 <= i < |s| - 1 && Text.LowerChar(s[i]) == x && Text.LowerChar(s[i + 1]) == y
  }

  /** A needle holding `x` right before `y` cannot occur in a lower-cased text that never has them adjacent. */
  lemma MissingPairNotFound(needle: string, s: string, j: nat)
    requires j + 1 < |needle|
    requires !HasLowerPair(s, needle[j], needle[j + 1])
    ensures !Text.IsSubstring(needle, Text.ToLower(s))
  {
    forall p | 0 <= p && p + |needle| <= |s|
      ensures !Text.OccursAt(Text.ToLower(s), needle, p)
    {
      var window := Text.ToLower(s)[p..p + |needle|];
      assert window[j] == Text.LowerChar(s[p + j]) && window[j + 1] == Text.LowerChar(s[p + j + 1]);
    }
  }

  /** Two texts without the pair, joined where the pair does not form, still lack it. */
  lemma NoPairJoined(a: string, b: string, x: char, y: char)
    requires |a| > 0 && |b| > 0
    requires !HasLowerPair(a, x, y) && !HasLowerPair(b, x, y)
    requires !(Text.LowerChar(a[|a| - 1]) == x && Text.LowerChar(b[0]) == y)
    ensures !HasLowerPair(a + b, x, y)
  {
    var ab := a + b;
    forall i | 0 <= i < |ab| - 1
      ensures !(Text.LowerChar(ab[i]) == x && Text.LowerChar(ab[i + 1]) == y)
    {
      if i + 1 < |a| {
        assert ab[i] == a[i] && ab[i + 1] == a[i + 1];
      } else if i >= |a| {
        assert ab[i] == b[i - |a|] && ab[i + 1] == b[i - |a| + 1];
      } else {
        assert ab[i] == a[|a| - 1] && ab[i + 1] == b[0];
      }
    }
  }

  /** None of the record's searchable texts, lower-cased, has `x` right before `y`. */
  ghost predicate FieldsLackPair(m: ModelRecord, x: char, y: char)
  {
    && !HasLowerPair(m.name, x, y)
    && !HasLowerPair(m.company, x, y)
    && !HasLowerPair(m.description, x, y)
    && forall k :: 0 <= k < |m.tags| ==> !HasLowerPair(m.tags[k], x, y)
  }

  /** A needle with a pair that none of a record's texts has is not found in the record. */
  lemma MissingPairNotFoundIn(m: ModelRecord, needle: string, j: nat)
    requires j + 1 < |needle|
    requires FieldsLackPair(m, needle[j], needle[j + 1])
    ensures !FoundIn(m, needle)
  {
    MissingPairNotFound(needle, m.name, j);
    MissingPairNotFound(needle, m.company, j);
    MissingPairNotFound(needle, m.description, j);
    forall k | 0 <= k < |m.tags|
      ensures !Text.IsSubstring(needle, Text.ToLower(m.tags[k]))
    {
      MissingPairNotFound(needle, m.tags[k], j);
    }
  }

  /** The name and company of ChatGPT 4.1 never have "u" right before "d". */
  lemma ChatGptNameLacksUD()
    ensures !HasLowerPair("ChatGPT\U{00A0}4.1", 'u', 'd')
    ensures !HasLowerPair("OpenAI", 'u', 'd')
  {
  }

  /** No tag of ChatGPT 4.1 has "u" right before "d". */
  lemma ChatGptTagsLackUD()
    ensures !HasLowerPair("General Assistant", 'u', 'd')
    ensures !HasLowerPair("Mobile Optimized", 'u', 'd')
  {
  }

  /** No piece of the description of ChatGPT 4.1 has "u" right before "d". */
  lemma ChatGptPiecesLackUD()
    ensures !HasLowerPair("Adaptive iOS\U{2011}", 'u', 'd')
    ensures !HasLowerPair("focused assistant ", 'u', 'd')
    ensures !HasLowerPair("with bio tool.", 'u', 'd')
  {
  }

  /** None of the texts the search reads in ChatGPT 4.1 (name, company, description, tags) has "u" right before "d". */
  lemma ChatGptLacksUD()
    ensures FieldsLackPair(ChatGpt, 'u', 'd')
  {
    ChatGptNameLacksUD();
    ChatGptTagsLackUD();
    ChatGptPiecesLackUD();
    NoPairJoined("Adaptive iOS\U{2011}", "focused assistant ", 'u', 'd');
    NoPairJoined("Adaptive iOS\U{2011}" + "focused assistant ", "with bio tool.", 'u', 'd');
  }

  /** The name and company of ChatGPT 4.1 never have two "n"s in a row. */
  lemma ChatGptNameLacksNN()
    ensures !HasLowerPair("ChatGPT\U{00A0}4.1", 'n', 'n')
    ensures !HasLowerPair("OpenAI", 'n', 'n')
  {
  }

  /** No tag of ChatGPT 4.1 has two "n"s in a row. */
  lemma ChatGptTagsLackNN()
    ensures !HasLowerPair("General Assistant", 'n', 'n')
    ensures !HasLowerPair("Mobile Optimized", 'n', 'n')
  {
  }

  /** No piece of the description of ChatGPT 4.1 has two "n"s in a row. */
  lemma ChatGptPiecesLackNN()
    ensures !HasLowerPair("Adaptive iOS\U{2011}", 'n', 'n')
    ensures !HasLowerPair("focused assistant ", 'n', 'n')
    ensures !HasLowerPair("with bio tool.", 'n', 'n')
  {
  }

  /** None of the texts the search reads in ChatGPT 4.1 (name, company, description, tags) has two "n"s in a row. */
  lemma ChatGptLacksNN()
    ensures FieldsLackPair(ChatGpt, 'n', 'n')
  {
    ChatGptNameLacksNN();
    ChatGptTagsLackNN();
    ChatGptPiecesLackNN();
    NoPairJoined("Adaptive iOS\U{2011}", "focused assistant ", 'n', 'n');
    NoPairJoined("Adaptive iOS\U{2011}" + "focused assistant ", "with bio tool.", 'n', 'n');
  }

  /** The name and company of Gemini 2.5 Pro never have "u" right before "d". */
  lemma GeminiNameLacksUD()
    ensures !HasLowerPair("Gemini\U{00A0}2.5\U{00A0}Pro", 'u', 'd')
    ensures !HasLowerPair("Google", 'u', 'd')
  {
  }

  /** No tag of Gemini 2.5 Pro has "u" right before "d". */
  lemma GeminiTagsLackUD()
    ensures !HasLowerPair("Coder", 'u', 'd')
    ensures !HasLowerPair("Multimodal", 'u', 'd')
  {
  }

  /** No piece of the description of Gemini 2.5 Pro has "u" right before "d". */
  lemma GeminiPiecesLackUD()
    ensures !HasLowerPair("Canvas and code ", 'u', 'd')
    ensures !HasLowerPair("generation specialist.", 'u', 'd')
  {
  }

  /** None of the texts the search reads in Gemini 2.5 Pro (name, company, description, tags) has "u" right before "d". */
  lemma GeminiLacksUD()
    ensures FieldsLackPair(Gemini, 'u', 'd')
  {
    GeminiNameLacksUD();
    GeminiTagsLackUD();
    GeminiPiecesLackUD();
    NoPairJoined("Canvas and code ", "generation specialist.", 'u', 'd');
  }

  /** The name and company of Mistral Next never have "u" right before "d". */
  lemma MistralNextNameLacksUD()
    ensures !HasLowerPair("Mistral\U{00A0}Next", 'u', 'd')
    ensures !HasLowerPair("Mistral", 'u', 'd')
  {
  }

  /** No tag of Mistral Next has "u" right before "d". */
  lemma MistralNextTagsLackUD()
    ensures !HasLowerPair("General Assistant", 'u', 'd')
    ensures !HasLowerPair("Multilingual", 'u', 'd')
  {
  }

  /** No piece of the description of Mistral Next has "u" right before "d". */
  lemma MistralNextPiecesLackUD()
    ensures !HasLowerPair("Fast, multilingual ", 'u', 'd')
    ensures !HasLowerPair("assistant tuned ", 'u', 'd')
    ensures !HasLowerPair("for reliability.", 'u', 'd')
  {
  }

  /** None of the texts the search reads in Mistral Next (name, company, description, tags) has "u" right before "d". */
  lemma MistralNextLacksUD()
    ensures FieldsLackPair(MistralNext, 'u', 'd')
  {
    MistralNextNameLacksUD();
    MistralNextTagsLackUD();
    MistralNextPiecesLackUD();
    NoPairJoined("Fast, multilingual ", "assistant tuned ", 'u', 'd');
    NoPairJoined("Fast, multilingual " + "assistant tuned ", "for reliability.", 'u', 'd');
  }

  /** The name and company of Perplexity 70B never have "u" right before "d". */
  lemma PerplexityNameLacksUD()
    ensures !HasLowerPair("Perplexity\U{00A0}70B", 'u', 'd')
    ensures !HasLowerPair("Perplexity", 'u', 'd')
  {
  }

  /** No tag of Perplexity 70B has "u" right before "d". */
  lemma PerplexityTagsLackUD()
    ensures !HasLowerPair("Search", 'u', 'd')
    ensures !HasLowerPair("Conversational", 'u', 'd')
  {
  }

  /** No piece of the description of Perplexity 70B has "u" right before "d". */
  lemma PerplexityPiecesLackUD()
    ensures !HasLowerPair("Search\U{2011}augmented ", 'u', 'd')
    ensures !HasLowerPair("conversational assistant.", 'u', 'd')
  {
  }

  /** None of the texts the search reads in Perplexity 70B (name, company, description, tags) has "u" right before "d". */
  lemma PerplexityLacksUD()
    ensures FieldsLackPair(Perplexity, 'u', 'd')
  {
    PerplexityNameLacksUD();
    PerplexityTagsLackUD();
    PerplexityPiecesLackUD();
    NoPairJoined("Search\U{2011}augmented ", "conversational assistant.", 'u', 'd');
  }

  /** The name and company of Llama 3.1 never have "u" right before "d". */
  lemma LlamaNameLacksUD()
    ensures !HasLowerPair("Llama\U{00A0}3.1", 'u', 'd')
    ensures !HasLowerPair("Meta", 'u', 'd')
  {
  }

  /** No tag of Llama 3.1 has "u" right before "d". */
  lemma LlamaTagsLackUD()
    ensures !HasLowerPair("Multimodal", 'u', 'd')
    ensures !HasLowerPair("Open Source", 'u', 'd')
  {
  }

  /** No piece of the description of Llama 3.1 has "u" right before "d". */
  lemma LlamaPiecesLackUD()
    ensures !HasLowerPair("Open source, multimodal ", 'u', 'd')
    ensures !HasLowerPair("language model.", 'u', 'd')
  {
  }

  /** None of the texts the search reads in Llama 3.1 (name, company, description, tags) has "u" right before "d". */
  lemma LlamaLacksUD()
    ensures FieldsLackPair(Llama, 'u', 'd')
  {
    LlamaNameLacksUD();
    LlamaTagsLackUD();
    LlamaPiecesLackUD();
    NoPairJoined("Open source, multimodal ", "language model.", 'u', 'd');
  }

  /** The selection from the seeded catalog, record by record in catalog order. */
  function Shown(m: ModelRecord, state: FilterState): seq<ModelRecord>
  {
    if Visible(m, state) then [m] else []
  }

  /** Filtering six records is keeping each one exactly when it is visible. */
  lemma SelectSix(r1: ModelRecord, r2: ModelRecord, r3: ModelRecord, r4: ModelRecord, r5: ModelRecord, r6: ModelRecord,
                  state: FilterState)
    ensures SelectVisible([r1, r2, r3, r4, r5, r6], state)
      == Shown(r1, state) + Shown(r2, state) + Shown(r3, state) + Shown(r4, state) + Shown(r5, state) + Shown(r6, state)
  {
    assert SelectVisible([], state) == [];
    SelectVisibleSnoc([], r1, state);
    assert [] + [r1] == [r1];
    SelectVisibleSnoc([r1], r2, state);
    assert [r1] + [r2] == [r1, r2];
    SelectVisibleSnoc([r1, r2], r3, state);
    assert [r1, r2] + [r3] == [r1, r2, r3];
    SelectVisibleSnoc([r1, r2, r3], r4, state);
    assert [r1, r2, r3] + [r4] == [r1, r2, r3, r4];
    SelectVisibleSnoc([r1, r2, r3, r4], r5, state);
    assert [r1, r2, r3, r4] + [r5] == [r1, r2, r3, r4, r5];
    SelectVisibleSnoc([r1, r2, r3, r4, r5], r6, state);
    assert [r1, r2, r3, r4, r5] + [r6] == [r1, r2, r3, r4, r5, r6];
  }

  /** Of six records, only the second is visible: the selection is that record alone. */
  lemma OnlySecondShown(r1: ModelRecord, r2: ModelRecord, r3: ModelRecord, r4: ModelRecord, r5: ModelRecord, r6: ModelRecord,
                        state: FilterState)
    requires Visible(r2, state)
    requires !Visible(r1, state) && !Visible(r3, state) && !Visible(r4, state) && !Visible(r5, state) && !Visible(r6, state)
    ensures SelectVisible([r1, r2, r3, r4, r5, r6], state) == [r2]
  {
    SelectSix(r1, r2, r3, r4, r5, r6, state);
  }

  /** Of six records, none is visible: the selection is empty. */
  lemma NoneShown(r1: ModelRecord, r2: ModelRecord, r3: ModelRecord, r4: ModelRecord, r5: ModelRecord, r6: ModelRecord,
                  state: FilterState)
    requires !Visible(r1, state) && !Visible(r2, state) && !Visible(r3, state)
    requires !Visible(r4, state) && !Visible(r5, state) && !Visible(r6, state)
    ensures SelectVisible([r1, r2, r3, r4, r5, r6], state) == []
  {
    SelectSix(r1, r2, r3, r4, r5, r6, state);
  }

  /** A record none of whose texts has "u" right before "d" is not found by any spelling of "claude". */
  lemma MissesClaude(m: ModelRecord, term: string)
    requires FieldsLackPair(m, 'u', 'd')
    requires Text.ToLower(term) == "claude"
    ensures !MatchesSearch(m, term)
  {
    var needle := "claude";
    assert needle[3] == 'u' && needle[4] == 'd';
    MissingPairNotFoundIn(m, needle, 3);
  }

  lemma ChatGptMissesClaude(term: string)
    requires Text.ToLower(term) == "claude"
    ensures !Visible(ChatGpt, FilterState(AllFilter, term))
  {
    ChatGptLacksUD();
    MissesClaude(ChatGpt, term);
  }

  lemma GeminiMissesClaude(term: string)
    requires Text.ToLower(term) == "claude"
    ensures !Visible(Gemini, FilterState(AllFilter, term))
  {
    GeminiLacksUD();
    MissesClaude(Gemini, term);
  }

  lemma MistralNextMissesClaude(term: string)
    requires Text.ToLower(term) == "claude"
    ensures !Visible(MistralNext, FilterState(AllFilter, term))
  {
    MistralNextLacksUD();
    MissesClaude(MistralNext, term);
  }

  lemma PerplexityMissesClaude(term: string)
    requires Text.ToLower(term) == "claude"
    ensures !Visible(Perplexity, FilterState(AllFilter, term))
  {
    PerplexityLacksUD();
    MissesClaude(Perplexity, term);
  }

  lemma LlamaMissesClaude(term: string)
    requires Text.ToLower(term) == "claude"
    ensures !Visible(Llama, FilterState(AllFilter, term))
  {
    LlamaLacksUD();
    MissesClaude(Llama, term);
  }

  lemma ClaudeFindsClaude(term: string)
    requires Text.ToLower(term) == "claude"
    ensures Visible(Claude, FilterState(AllFilter, term))
  {
    ClaudeInName();
    NameHitMatches(Claude, term, 0);
  }

  /** Searching any spelling of "claude" shows Claude 4 Sonnet and nothing else. */
  lemma SearchFindsClaude(term: string)
    requires Text.ToLower(term) == "claude"
    ensures SelectVisible(Catalog, FilterState(AllFilter, term)) == [Claude]
  {
    ClaudeFindsClaude(term);
    ChatGptMissesClaude(term);
    GeminiMissesClaude(term);
    MistralNextMissesClaude(term);
    PerplexityMissesClaude(term);
    LlamaMissesClaude(term);
    OnlySecondShown(ChatGpt, Claude, Gemini, MistralNext, Perplexity, Llama, FilterState(AllFilter, term));
  }

  /** The term "CLAUDE" shows Claude 4 Sonnet alone. */
  lemma SearchUpperClaude()
    ensures SelectVisible(Catalog, FilterState(AllFilter, "CLAUDE")) == [Claude]
  {
    UpperClaudeLowers();
    SearchFindsClaude("CLAUDE");
  }

  /** A company of another length never equals the filter id, whatever the letter case, so the record stays hidden. */
  lemma OtherLengthCompany(m: ModelRecord, filter: string, term: string)
    requires filter != AllFilter && filter != CodingFilter
    requires |m.company| != |filter|
    ensures !Visible(m, FilterState(filter, term))
  {
  }

  lemma ClaudeIsAnthropicSonnet(term: string)
    requires Text.ToLower(term) == "sonnet"
    ensures Visible(Claude, FilterState("Anthropic", term))
  {
    SonnetInName();
    NameHitMatches(Claude, term, 9);
    assert Text.SameIgnoringCase(Claude.company, "Anthropic");
  }

  /** The Anthropic filter together with any spelling of "sonnet" shows Claude 4 Sonnet and nothing else. */
  lemma AnthropicSonnetFindsClaude(term: string)
    requires Text.ToLower(term) == "sonnet"
    ensures SelectVisible(Catalog, FilterState("Anthropic", term)) == [Claude]
  {
    ClaudeIsAnthropicSonnet(term);
    OtherLengthCompany(ChatGpt, "Anthropic", term);
    OtherLengthCompany(Gemini, "Anthropic", term);
    OtherLengthCompany(MistralNext, "Anthropic", term);
    OtherLengthCompany(Perplexity, "Anthropic", term);
    OtherLengthCompany(Llama, "Anthropic", term);
    OnlySecondShown(ChatGpt, Claude, Gemini, MistralNext, Perplexity, Llama, FilterState("Anthropic", term));
  }

  /** No spelling of "sonnet" is found in ChatGPT 4.1, whose texts never have two "n"s in a row. */
  lemma ChatGptMissesSonnet(term: string)
    requires Text.ToLower(term) == "sonnet"
    ensures !Visible(ChatGpt, FilterState("OpenAI", term))
  {
    var needle := "sonnet";
    assert needle[2] == 'n' && needle[3] == 'n';
    ChatGptLacksNN();
    MissingPairNotFoundIn(ChatGpt, needle, 2);
  }

  /** Google is not OpenAI in any letter case, although both names have six letters. */
  lemma GoogleIsNotOpenAi(term: string)
    ensures !Visible(Gemini, FilterState("OpenAI", term))
  {
    assert Text.LowerChar(Gemini.company[0]) != Text.LowerChar("OpenAI"[0]);
  }

  /** The OpenAI filter together with any spelling of "sonnet" shows no record. */
  lemma OpenAiSonnetFindsNothing(term: string)
    requires Text.ToLower(term) == "sonnet"
    ensures SelectVisible(Catalog, FilterState("OpenAI", term)) == []
  {
    ChatGptMissesSonnet(term);
    OtherLengthCompany(Claude, "OpenAI", term);
    GoogleIsNotOpenAi(term);
    OtherLengthCompany(MistralNext, "OpenAI", term);
    OtherLengthCompany(Perplexity, "OpenAI", term);
    OtherLengthCompany(Llama, "OpenAI", term);
    NoneShown(ChatGpt, Claude, Gemini, MistralNext, Perplexity, Llama, FilterState("OpenAI", term));
  }

  /** Rendering the seeded catalog for the OpenAI filter and the term "sonnet" shows the placeholder. */
  method OpenAiSonnetRendersPlaceholder() returns (grid: Cards.Grid)
    ensures grid == Cards.NoResults(Cards.NoResultsText)
  {
    var state := FilterState("OpenAI", "sonnet");
    SonnetLowers();
    OpenAiSonnetFindsNothing("sonnet");
    SelectVisibleEmptyIff(Catalog, state);
    grid := Cards.RenderModels(Catalog, state);
  }

  /** Gemini's "Coder" tag puts it in the coding category. */
  lemma GeminiIsCoding()
    ensures Gemini in SelectVisible(Catalog, FilterState(CodingFilter, ""))
  {
    var tag := Text.ToLower(Gemini.tags[0]);
    assert tag == "coder";
    assert Text.OccursAt(tag, CoderFragment, 0);
    SelectVisibleMembership(Catalog, FilterState(CodingFilter, ""), Gemini);
  }
}
