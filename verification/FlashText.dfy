/** The texts of the patch script. */
module FlashText {
  import opened Text
  import opened FlashPatch
  import opened FlashPatchLaws
  import opened FlashPatchTwice

  const IMPORT_LINE := "from flash_attn.bert_padding " + "import index_first_axis, " + "pad_input, rearrange, " + "unpad_input"

  const FLAG_TRUE := "_FLASH_ATTN_AVAILABLE = True"
  const FLAG_FALSE := "_FLASH_ATTN_AVAILABLE = False"
  const EXCEPT_LINE := "except ImportError:"
  const INDEX_NAME := "index_first_axis"
  const PAD_NAME := "pad_input"
  const REARRANGE_NAME := "rearrange"
  const UNPAD_NAME := "unpad_input"
  const IS_NONE := " = None"
  const INDENT := "    "

  function TheBlock(): seq<string> {
    ["try:", INDENT + IMPORT_LINE, "", INDENT + FLAG_TRUE, EXCEPT_LINE, INDENT + (INDEX_NAME + IS_NONE),
     INDENT + (PAD_NAME + IS_NONE), INDENT + (REARRANGE_NAME + IS_NONE), INDENT + (UNPAD_NAME + IS_NONE), INDENT + FLAG_FALSE]
  }

  const MARKER := "_FLASH_ATTN_AVAILABLE"
  const IS_REQUIRED := "flash_attn is required "
  const WHEN_REQUIRED := "when use_remove_padding=True"
  const REQUIRED := IS_REQUIRED + WHEN_REQUIRED
  const DEEP := "                        "

  const GUARD_IF := "                if not " + MARKER + ":"
  const GUARD_RAISE := "                    " + "raise ImportError("
  const GUARD_WHY := DEEP + "\"" + REQUIRED + ". \""
  const INSTALL := "\"Install flash-attn or set "
  const MODEL_CONFIG := "actor_rollout_ref.model."
  const NO_PADDING := "use_remove_padding=False.\""
  const GUARD_HOW := DEEP + INSTALL + MODEL_CONFIG + NO_PADDING
  const GUARD_END := "                    )"
  const BRANCH_LINE := "            " + "if self.use_remove_padding:"

  function TheGuard(): seq<string> { [GUARD_IF, GUARD_RAISE, GUARD_WHY, GUARD_HOW, GUARD_END] }

  function TheScript(): Script {
    Script(IMPORT_LINE, TheBlock(), [INDEX_NAME, PAD_NAME, REARRANGE_NAME, UNPAD_NAME], FLAG_TRUE, FLAG_FALSE, EXCEPT_LINE,
           MARKER, BRANCH_LINE, TheGuard(), REQUIRED)
  }

  lemma OneLineJoin(a: string, b: string)
    requires OneLine(a) && OneLine(b)
    ensures OneLine(a + b)
  {
  }

  lemma ImportOneLine()
    ensures OneLine(IMPORT_LINE) && OneLine(INDENT + IMPORT_LINE)
    ensures IMPORT_LINE[|IMPORT_LINE|-1] == 't' && 'f' in IMPORT_LINE && ',' in IMPORT_LINE
  {
    ImportStart();
    ImportEnd();
    OneLineJoin(INDENT, IMPORT_LINE);
  }

  lemma ImportStart()
    ensures var a, b := "from flash_attn.bert_padding ", "import index_first_axis, ";
            OneLine(a + b) && 'f' in a + b && ',' in a + b
  {
    var a, b := "from flash_attn.bert_padding ", "import index_first_axis, ";
    assert a[0] == 'f' && b[23] == ',';
    OneLineJoin(a, b);
  }

  lemma ImportEnd()
    requires OneLine("from flash_attn.bert_padding " + "import index_first_axis, ")
    ensures OneLine(IMPORT_LINE) && IMPORT_LINE[|IMPORT_LINE|-1] == 't'
  {
    var c, d := "pad_input, rearrange, ", "unpad_input";
    assert d[10] == 't';
    OneLineJoin("from flash_attn.bert_padding " + "import index_first_axis, ", c);
    OneLineJoin("from flash_attn.bert_padding " + "import index_first_axis, " + c, d);
  }

  /** A line the branch line cannot be the end of. */
  predicate Fine(s: string) { OneLine(s) && !EndsWith(s, "g:") && |s| != 1 }

  lemma FineIf(s: string)
    requires OneLine(s) && |s| != 1 && (s == "" || s[|s|-1] != ':' || s[|s|-2] != 'g')
    ensures Fine(s)
  {
    NotEnding(s);
  }

  lemma NotEnding(s: string)
    ensures EndsWith(s, "g:") ==> |s| >= 2 && s[|s|-2] == 'g' && s[|s|-1] == ':'
  {
    if EndsWith(s, "g:") { assert s[|s| - 2..][0] == 'g' && s[|s| - 2..][1] == ':'; }
  }

  /** A word a line of the block ends in. */
  predicate Word(w: string) { |w| >= 2 && OneLine(w) && w[|w|-1] != ':' }

  lemma WordLine(w: string)
    requires Word(w)
    ensures Fine(INDENT + w)
  {
    OneLineJoin(INDENT, w);
    FineIf(INDENT + w);
  }

  lemma FineStart()
    ensures Fine("try:") && Fine(INDENT + IMPORT_LINE) && Fine("")
  {
    ImportOneLine();
    var imp := INDENT + IMPORT_LINE;
    assert imp[|imp|-1] == 't' && |imp| > 1;
    hide IMPORT_LINE;
    FineIf("try:");
    FineIf(imp);
    FineIf("");
  }

  lemma FlagWords()
    ensures Word(FLAG_TRUE) && Word(FLAG_FALSE)
  {
    assert FLAG_TRUE[27] == 'e' && FLAG_FALSE[28] == 'e';
  }

  lemma ExceptWord()
    ensures Fine(EXCEPT_LINE)
  {
    FineIf(EXCEPT_LINE);
  }

  lemma NameWord(name: string)
    requires |name| >= 2 && OneLine(name)
    ensures Word(name + IS_NONE)
  {
    OneLineJoin(name, IS_NONE);
    assert (name + IS_NONE)[|name| + 6] == IS_NONE[6] == 'e';
  }

  lemma NameWords()
    ensures Word(INDEX_NAME + IS_NONE) && Word(PAD_NAME + IS_NONE) && Word(REARRANGE_NAME + IS_NONE) && Word(UNPAD_NAME + IS_NONE)
  {
    NameWord(INDEX_NAME);
    NameWord(PAD_NAME);
    NameWord(REARRANGE_NAME);
    NameWord(UNPAD_NAME);
  }

  lemma WordLines()
    ensures Fine(INDENT + FLAG_TRUE) && Fine(INDENT + FLAG_FALSE) && Fine(INDENT + (INDEX_NAME + IS_NONE))
    ensures Fine(INDENT + (PAD_NAME + IS_NONE)) && Fine(INDENT + (REARRANGE_NAME + IS_NONE)) && Fine(INDENT + (UNPAD_NAME + IS_NONE))
  {
    FlagWords();
    NameWords();
    hide *;
    WordLine(FLAG_TRUE);
    WordLine(FLAG_FALSE);
    WordLine(INDEX_NAME + IS_NONE);
    WordLine(PAD_NAME + IS_NONE);
    WordLine(REARRANGE_NAME + IS_NONE);
    WordLine(UNPAD_NAME + IS_NONE);
  }

  lemma BlockSuitable()
    ensures var b := TheBlock();
            && |b| >= 3 && b[0] == "try:" && b[1] != "" && b[|b|-1] != "" && AllOneLine(b)
            && forall i :: 0 <= i < |b| ==> !EndsWith(b[i], "g:") && |b[i]| != 1
  {
    FineStart();
    WordLines();
    ExceptWord();
    hide IMPORT_LINE, EndsWith, OneLine, FLAG_TRUE, FLAG_FALSE, INDEX_NAME, PAD_NAME, REARRANGE_NAME, UNPAD_NAME, IS_NONE, EXCEPT_LINE, Strip, Word;
    assert forall i :: 0 <= i < |TheBlock()| ==> Fine(TheBlock()[i]);
  }

  lemma ImportInBlock()
    ensures Contains(TheBlock()[1], IMPORT_LINE)
  {
    hide IMPORT_LINE;
    assert OccursAt(INDENT + IMPORT_LINE, IMPORT_LINE, 4);
  }

  predicate Bare(w: string) { w != "" && !IsSpace(w[0]) && !IsSpace(w[|w|-1]) }

  lemma StripIndented(w: string)
    requires Bare(w)
    ensures Strip(INDENT + w) == w && Strip(w) == w
  {
    assert "" + w == w;
    StripWord(INDENT, w);
    StripWord("", w);
  }

  lemma BareFlags()
    ensures Bare(FLAG_TRUE) && Bare(FLAG_FALSE) && Bare(EXCEPT_LINE) && FLAG_TRUE != FLAG_FALSE && FLAG_FALSE != EXCEPT_LINE
  {
    assert FLAG_TRUE[0] == '_' && FLAG_TRUE[27] == 'e' && FLAG_FALSE[0] == '_' && FLAG_FALSE[28] == 'e';
    assert EXCEPT_LINE[0] == 'e' && EXCEPT_LINE[18] == ':';
  }

  /** A name set to None, which is not the flag. */
  lemma BareName(name: string)
    requires |name| > 0 && !IsSpace(name[0]) && name[0] != '_'
    ensures Bare(name + IS_NONE) && name + IS_NONE != FLAG_FALSE
  {
    var w := name + IS_NONE;
    assert w[0] == name[0] && w[|w|-1] == IS_NONE[6] == 'e' && FLAG_FALSE[0] == '_';
  }

  lemma TailFlags()
    ensures var c := TheScript();
            && Tail(c, "") && Tail(c, INDENT + FLAG_TRUE) && Tail(c, EXCEPT_LINE) && Tail(c, INDENT + FLAG_FALSE)
            && Strip(INDENT + FLAG_FALSE) == c.flagFalse && "" != c.flagFalse == FLAG_FALSE
            && Strip("") == "" && Strip(INDENT + FLAG_TRUE) == FLAG_TRUE && Strip(EXCEPT_LINE) == EXCEPT_LINE
  {
    BareFlags();
    hide FLAG_TRUE, FLAG_FALSE, EXCEPT_LINE;
    StripIndented(FLAG_TRUE);
    StripIndented(FLAG_FALSE);
    StripIndented(EXCEPT_LINE);
    assert Strip("") == "";
    hide Strip, TheBlock, TheGuard;
  }

  lemma TailName(name: string, k: nat)
    requires k < 4 && TheScript().fallbackNames[k] == name && |name| > 0 && !IsSpace(name[0]) && name[0] != '_'
    ensures Tail(TheScript(), INDENT + (name + IS_NONE)) && Strip(INDENT + (name + IS_NONE)) != FLAG_FALSE
  {
    BareName(name);
    StripIndented(name + IS_NONE);
    hide Strip, FLAG_FALSE, TheBlock, TheGuard;
    assert TheScript().fallbackNames[k] + " = None" == name + IS_NONE;
  }

  lemma TailNames()
    ensures var c := TheScript();
            && Tail(c, INDENT + (INDEX_NAME + IS_NONE)) && Tail(c, INDENT + (PAD_NAME + IS_NONE))
            && Tail(c, INDENT + (REARRANGE_NAME + IS_NONE)) && Tail(c, INDENT + (UNPAD_NAME + IS_NONE))
    ensures Strip(INDENT + (INDEX_NAME + IS_NONE)) != FLAG_FALSE && Strip(INDENT + (PAD_NAME + IS_NONE)) != FLAG_FALSE
    ensures Strip(INDENT + (REARRANGE_NAME + IS_NONE)) != FLAG_FALSE && Strip(INDENT + (UNPAD_NAME + IS_NONE)) != FLAG_FALSE
  {
    TheNames();
    hide Strip, Tail, TheScript, TheBlock, TheGuard, FLAG_FALSE, IS_NONE;
    TailName(INDEX_NAME, 0);
    TailName(PAD_NAME, 1);
    TailName(REARRANGE_NAME, 2);
    TailName(UNPAD_NAME, 3);
  }

  lemma TheNames()
    ensures TheScript().fallbackNames == [INDEX_NAME, PAD_NAME, REARRANGE_NAME, UNPAD_NAME]
    ensures INDEX_NAME[0] == 'i' && PAD_NAME[0] == 'p' && REARRANGE_NAME[0] == 'r' && UNPAD_NAME[0] == 'u'
  {
    hide TheBlock, TheGuard, Strip;
  }

  /** The lines of the block from the third on are those of the fallback. */
  lemma TailSuitable()
    ensures TailFits(TheScript())
  {
    var c := TheScript();
    hide *;
    TailFlags();
    FlagsDiffer();
    TailNames();
    BlockLines(c.block);
    forall i | 2 <= i < 10 ensures Tail(c, c.block[i]) && (Strip(c.block[i]) == c.flagFalse <==> i == 9) { }
    FitsIf(c);
  }

  /** And nothing else is taken for them. */
  lemma ClosedSuitable()
    ensures TailClosed(TheScript())
  {
    var c := TheScript();
    hide *;
    BlockLines(c.block);
    TheTail();
    At(c, 3, c.flagTrue);
    At(c, 4, c.exceptLine);
    At(c, 5, c.fallbackNames[0] + " = None");
    At(c, 6, c.fallbackNames[1] + " = None");
    At(c, 7, c.fallbackNames[2] + " = None");
    At(c, 8, c.fallbackNames[3] + " = None");
    forall k | 0 <= k < 4 ensures InFallback(c, c.fallbackNames[k] + " = None") { }
    ClosedIf(c);
  }

  lemma At(c: Script, i: nat, s: string)
    requires 2 <= i < |c.block| && Strip(c.block[i]) == s
    ensures InFallback(c, s)
  {
    hide Strip;
  }

  lemma ClosedIf(c: Script)
    requires InFallback(c, c.flagTrue) && InFallback(c, c.exceptLine)
    requires forall k :: 0 <= k < |c.fallbackNames| ==> InFallback(c, c.fallbackNames[k] + " = None")
    ensures TailClosed(c)
  {
    hide InFallback;
  }

  lemma TheTail()
    ensures var c := TheScript();
            && |c.fallbackNames| == 4 && Strip(INDENT + FLAG_TRUE) == c.flagTrue && Strip(EXCEPT_LINE) == c.exceptLine
            && Strip(INDENT + (INDEX_NAME + IS_NONE)) == c.fallbackNames[0] + " = None"
            && Strip(INDENT + (PAD_NAME + IS_NONE)) == c.fallbackNames[1] + " = None"
            && Strip(INDENT + (REARRANGE_NAME + IS_NONE)) == c.fallbackNames[2] + " = None"
            && Strip(INDENT + (UNPAD_NAME + IS_NONE)) == c.fallbackNames[3] + " = None"
  {
    TailFlags();
    TheNames();
    hide Strip, Tail, TheBlock, TheGuard, FLAG_TRUE, FLAG_FALSE, EXCEPT_LINE, INDENT;
    StripName(INDEX_NAME);
    StripName(PAD_NAME);
    StripName(REARRANGE_NAME);
    StripName(UNPAD_NAME);
  }

  lemma StripName(name: string)
    requires |name| > 0 && !IsSpace(name[0]) && name[0] != '_'
    ensures Strip(INDENT + (name + IS_NONE)) == name + IS_NONE
  {
    BareName(name);
    StripIndented(name + IS_NONE);
  }

  lemma FlagsDiffer()
    ensures FLAG_TRUE != FLAG_FALSE && FLAG_FALSE != EXCEPT_LINE
  {
    BareFlags();
  }

  lemma BlockLines(block: seq<string>)
    requires block == TheScript().block
    ensures |block| == 10
    ensures block[2] == "" && block[3] == INDENT + FLAG_TRUE && block[4] == EXCEPT_LINE && block[9] == INDENT + FLAG_FALSE
    ensures block[5] == INDENT + (INDEX_NAME + IS_NONE) && block[6] == INDENT + (PAD_NAME + IS_NONE)
    ensures block[7] == INDENT + (REARRANGE_NAME + IS_NONE) && block[8] == INDENT + (UNPAD_NAME + IS_NONE)
  {
    hide IS_NONE, FLAG_TRUE, FLAG_FALSE, EXCEPT_LINE, INDEX_NAME, PAD_NAME, REARRANGE_NAME, UNPAD_NAME, IMPORT_LINE, TheGuard, INDENT;
  }

  lemma FitsIf(c: Script)
    requires |c.block| == 10 && forall i :: 2 <= i < 10 ==> Tail(c, c.block[i]) && (Strip(c.block[i]) == c.flagFalse <==> i == 9)
    ensures TailFits(c)
  {
    hide Tail, Strip;
  }

  lemma MarkerInBlock()
    ensures Marks(TheScript())
  {
    assert FLAG_TRUE == MARKER + " = True" && INDENT + FLAG_TRUE == INDENT + MARKER + " = True";
    BlockLines(TheScript().block);
    hide MARKER, INDENT, FLAG_TRUE, TheBlock, TheGuard;
    assert OccursAt(MARKER, MARKER, 0);
    ContainsBehind(INDENT, MARKER, " = True", MARKER);
  }

  predicate Harmless(line: string) { '\n' !in line && ',' !in line }

  lemma HarmlessJoin(a: string, b: string)
    requires Harmless(a) && Harmless(b)
    ensures Harmless(a + b)
  {
  }

  lemma GuardIfHarmless()
    ensures Harmless(GUARD_IF)
  {
    MarkerHarmless();
    hide MARKER;
    HarmlessJoin("                if not ", MARKER);
    HarmlessJoin("                if not " + MARKER, ":");
  }

  lemma MarkerHarmless()
    ensures Harmless(MARKER)
  {
  }

  lemma GuardEndHarmless()
    ensures Harmless(GUARD_END)
  {
  }

  lemma GuardRaiseHarmless()
    ensures Harmless(GUARD_RAISE)
  {
    HarmlessJoin("                    ", "raise ImportError(");
  }

  lemma RequiredHarmless()
    ensures Harmless(REQUIRED)
  {
    IsRequiredHarmless();
    WhenRequiredHarmless();
    hide IS_REQUIRED, WHEN_REQUIRED;
    HarmlessJoin(IS_REQUIRED, WHEN_REQUIRED);
  }

  lemma IsRequiredHarmless()
    ensures Harmless(IS_REQUIRED)
  {
  }

  lemma WhenRequiredHarmless()
    ensures Harmless(WHEN_REQUIRED)
  {
  }

  lemma GuardWhyHarmless()
    ensures Harmless(GUARD_WHY)
  {
    RequiredHarmless();
    hide REQUIRED;
    HarmlessJoin(DEEP, "\"");
    HarmlessJoin(DEEP + "\"", REQUIRED);
    HarmlessJoin(DEEP + "\"" + REQUIRED, ". \"");
  }

  lemma DeepHarmless()
    ensures Harmless(DEEP)
  {
  }

  lemma InstallHarmless()
    ensures Harmless(INSTALL)
  {
  }

  lemma ConfigHarmless()
    ensures Harmless(MODEL_CONFIG)
  {
  }

  lemma NoPaddingHarmless()
    ensures Harmless(NO_PADDING)
  {
  }

  lemma GuardHowHarmless()
    ensures Harmless(GUARD_HOW)
  {
    DeepHarmless();
    InstallHarmless();
    ConfigHarmless();
    NoPaddingHarmless();
    hide DEEP, INSTALL, MODEL_CONFIG, NO_PADDING;
    HarmlessJoin(DEEP, INSTALL);
    HarmlessJoin(DEEP + INSTALL, MODEL_CONFIG);
    HarmlessJoin(DEEP + INSTALL + MODEL_CONFIG, NO_PADDING);
  }

  lemma GuardSuitable()
    ensures AllOneLine(TheGuard()) && forall i :: 0 <= i < |TheGuard()| ==> ',' !in TheGuard()[i]
  {
    GuardIfHarmless();
    GuardEndHarmless();
    GuardRaiseHarmless();
    GuardWhyHarmless();
    GuardHowHarmless();
    hide GUARD_IF, GUARD_RAISE, GUARD_WHY, GUARD_HOW, GUARD_END;
    assert forall i :: 0 <= i < |TheGuard()| ==> Harmless(TheGuard()[i]);
  }

  lemma BranchSuitable()
    ensures OneLine(BRANCH_LINE) && EndsWith(BRANCH_LINE, "g:")
  {
    var b := "if self.use_remove_padding:";
    OneLineJoin("            ", b);
    assert |BRANCH_LINE| == 39 && BRANCH_LINE[37] == b[25] == 'g' && BRANCH_LINE[38] == b[26] == ':';
    assert BRANCH_LINE[37..] == "g:";
  }

  lemma {:induction false} TerminatedHas(lines: seq<string>, k: nat, p: string)
    requires k < |lines| && Contains(lines[k], p)
    ensures Contains(Terminated(lines), p)
  {
    hide Contains;
    var rest := Terminated(lines[1..]);
    if k == 0 {
      ContainsBehind("", lines[0], "\n" + rest, p);
      assert "" + lines[0] + ("\n" + rest) == lines[0] + "\n" + rest;
    } else {
      TerminatedHas(lines[1..], k - 1, p);
      ContainsBehind(lines[0] + "\n", rest, "", p);
      assert lines[0] + "\n" + rest + "" == lines[0] + "\n" + rest;
    }
  }

  lemma MarkerInGuard()
    ensures Contains(Terminated(TheGuard()), MARKER) && Contains(Terminated(TheGuard()), REQUIRED)
  {
    assert TheGuard()[0] == GUARD_IF && TheGuard()[2] == GUARD_WHY;
    hide MARKER, REQUIRED;
    assert OccursAt(MARKER, MARKER, 0) && OccursAt(REQUIRED, REQUIRED, 0);
    ContainsBehind("                if not ", MARKER, ":", MARKER);
    ContainsBehind(DEEP + "\"", REQUIRED, ". \"", REQUIRED);
    hide *;
    TerminatedHas(TheGuard(), 0, MARKER);
    TerminatedHas(TheGuard(), 2, REQUIRED);
  }

  lemma NotEmptyTexts()
    ensures MARKER != "" && TheGuard() != []
  {
  }

  /** The laws hold of the script as it is. */
  lemma ScriptSuitable()
    ensures Suitable(TheScript())
  {
    hide IMPORT_LINE, MARKER, REQUIRED, BRANCH_LINE, TheBlock, TheGuard, Terminated, Contains, EndsWith, AllOneLine, OneLine, TailFits, TailClosed, Marks;
    TailSuitable();
    ClosedSuitable();
    MarkerInBlock();
    BlockSuitable();
    ImportInBlock();
    ImportOneLine();
    GuardSuitable();
    BranchSuitable();
    MarkerInGuard();
    NotEmptyTexts();
  }

  lemma ScriptIsIdempotent(text: string)
    requires TheScript().block != [] && PatchText(TheScript(), text).Patched?
    ensures PatchText(TheScript(), PatchText(TheScript(), text).text) == Patched(PatchText(TheScript(), text).text, false)
    ensures PatchText(TheScript(), text).changed <==> PatchText(TheScript(), text).text != text
  {
    ScriptSuitable();
    hide *;
    PatchIsIdempotent(TheScript(), text);
    PatchFlag(TheScript(), text);
  }

  /** And what the script writes holds the import in complete blocks only, holds the guard, and is line by
      line the original but for old imports and the guard. */
  lemma ScriptPatches(text: string, i: nat)
    requires TheScript().block != [] && PatchText(TheScript(), text).Patched?
    ensures var t := PatchText(TheScript(), text).text;
            && Contains(t, REQUIRED)
            && (i < |SplitLines(t)| && Contains(SplitLines(t)[i], IMPORT_LINE) ==> InBlock(TheScript(), SplitLines(t), i))
    ensures exists front, added, behind ::
              PatchedLines(TheScript(), SplitLines(text), SplitLines(PatchText(TheScript(), text).text), front, added, behind)
  {
    ScriptSuitable();
    assert TheScript().required == REQUIRED && TheScript().importLine == IMPORT_LINE;
    hide *;
    PatchedHolds(TheScript(), text, i);
    PatchedKeeps(TheScript(), text);
  }
}
