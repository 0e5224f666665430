/**
 * The translation-file checker: it cuts the file into `name: { ... }` blocks, one per language
 * (a later block of the same name replaces an earlier one), collects the `'key':` names of each
 * block from left to right, and reports for each language the keys that occur more than once,
 * each once, in the order of their second occurrence.
 */
module Duplicates {
  import opened Wrappers
  import opened JsText
  import opened Seqs

  // ---------------------------------------------------------------------------
  // Runs of characters

  predicate IsWordChar(c: char) {
    ('a' <= c <= 'z') || ('A' <= c <= 'Z') || ('0' <= c <= '9') || c == '_'
  }

  /** The end of the run of `\w` characters that starts at `i`. */
  function WordEnd(s: string, i: nat): (k: nat)
    requires i <= |s|
    ensures i <= k <= |s|
    decreases |s| - i
  {
    if i < |s| && IsWordChar(s[i]) then WordEnd(s, i + 1) else i
  }

  /** The run is made of `\w` characters and the greedy `+` takes all of them. */
  lemma {:induction false} WordEndSound(s: string, i: nat)
    requires i <= |s|
    ensures forall j :: i <= j < WordEnd(s, i) ==> IsWordChar(s[j])
    ensures WordEnd(s, i) < |s| ==> !IsWordChar(s[WordEnd(s, i)])
    decreases |s| - i
  {
    if i < |s| && IsWordChar(s[i]) {
      WordEndSound(s, i + 1);
    }
  }

  lemma {:induction false} WordEndAt(s: string, i: nat, e: nat)
    requires i <= e <= |s|
    requires forall j :: i <= j < e ==> IsWordChar(s[j])
    requires e == |s| || !IsWordChar(s[e])
    ensures WordEnd(s, i) == e
    decreases e - i
  {
    if i < e {
      WordEndAt(s, i + 1, e);
    }
  }

  /** The end of the run of `\s` characters that starts at `i`. */
  function SpaceEnd(s: string, i: nat): (k: nat)
    requires i <= |s|
    ensures i <= k <= |s|
    decreases |s| - i
  {
    if i < |s| && IsJsWhitespace(s[i]) then SpaceEnd(s, i + 1) else i
  }

  lemma {:induction false} SpaceEndSound(s: string, i: nat)
    requires i <= |s|
    ensures forall j :: i <= j < SpaceEnd(s, i) ==> IsJsWhitespace(s[j])
    ensures SpaceEnd(s, i) < |s| ==> !IsJsWhitespace(s[SpaceEnd(s, i)])
    decreases |s| - i
  {
    if i < |s| && IsJsWhitespace(s[i]) {
      SpaceEndSound(s, i + 1);
    }
  }

  lemma {:induction false} SpaceEndAt(s: string, i: nat, e: nat)
    requires i <= e <= |s|
    requires forall j :: i <= j < e ==> IsJsWhitespace(s[j])
    requires e == |s| || !IsJsWhitespace(s[e])
    ensures SpaceEnd(s, i) == e
    decreases e - i
  {
    if i < e {
      SpaceEndAt(s, i + 1, e);
    }
  }

  /** The first index at or after `i` holding `c`, or `|s|`. */
  function NextIndexOf(s: string, i: nat, c: char): (k: nat)
    requires i <= |s|
    ensures i <= k <= |s|
    decreases |s| - i
  {
    if i == |s| || s[i] == c then i else NextIndexOf(s, i + 1, c)
  }

  lemma {:induction false} NextIndexOfSound(s: string, i: nat, c: char)
    requires i <= |s|
    ensures forall j :: i <= j < NextIndexOf(s, i, c) ==> s[j] != c
    ensures NextIndexOf(s, i, c) < |s| ==> s[NextIndexOf(s, i, c)] == c
    decreases |s| - i
  {
    if i < |s| && s[i] != c {
      NextIndexOfSound(s, i + 1, c);
    }
  }

  lemma {:induction false} NextIndexOfAt(s: string, i: nat, k: nat, c: char)
    requires i <= k <= |s|
    requires forall j :: i <= j < k ==> s[j] != c
    requires k == |s| || s[k] == c
    ensures NextIndexOf(s, i, c) == k
    decreases k - i
  {
    if i < k {
      NextIndexOfAt(s, i + 1, k, c);
    }
  }

  // ---------------------------------------------------------------------------
  // The key pattern `/'([^']+)':/g`

  /** A match of the key pattern: the opening quote at `start`, the closing quote at `close`. */
  datatype KeySpan = KeySpan(start: nat, close: nat)

  /** `'`, then one or more characters other than `'`, then `'` and `:`. */
  predicate KeyShape(s: string, m: KeySpan) {
    m.start + 1 < m.close && m.close + 1 < |s| && s[m.start] == '\'' && s[m.close] == '\'' && s[m.close + 1] == ':'
    && forall j :: m.start < j < m.close ==> s[j] != '\''
  }

  /** The key pattern tried at `p`. */
  function KeyMatchAt(s: string, p: nat): (r: Option<KeySpan>)
    requires p <= |s|
    ensures r.Some? ==> r.value.start == p && p + 1 < r.value.close && r.value.close + 1 < |s|
  {
    if p < |s| && s[p] == '\'' then
      var q := NextIndexOf(s, p + 1, '\'');
      if p + 1 < q && q + 1 < |s| && s[q + 1] == ':' then Some(KeySpan(p, q)) else None
    else None
  }

  /** What the pattern matches at `p` has the pattern's shape. */
  lemma KeyMatchAtSound(s: string, p: nat)
    requires p <= |s| && KeyMatchAt(s, p).Some?
    ensures KeyShape(s, KeyMatchAt(s, p).value)
  {
    NextIndexOfSound(s, p + 1, '\'');
  }

  /** There is no other way to match: `[^']+` can only stop at the next quote. */
  lemma {:induction false} KeyMatchAtComplete(s: string, m: KeySpan)
    requires KeyShape(s, m)
    ensures KeyMatchAt(s, m.start) == Some(m)
  {
    NextIndexOfAt(s, m.start + 1, m.close, '\'');
  }

  /** `keyRegex.exec(body)` with `lastIndex = from`: the first position at or after `from` where the pattern matches. */
  function KeyExec(s: string, from: nat): (r: Option<KeySpan>)
    requires from <= |s|
    ensures r.Some? ==> from <= r.value.start < |s| && KeyMatchAt(s, r.value.start) == r
    decreases |s| - from
  {
    var r := KeyMatchAt(s, from);
    if r.Some? || from == |s| then r else KeyExec(s, from + 1)
  }

  /** The match `exec` returns is the leftmost one, and `None` means there is none. */
  lemma {:induction false} KeyExecIsLeftmost(s: string, from: nat)
    requires from <= |s|
    ensures KeyExec(s, from).Some? ==> forall p :: from <= p < KeyExec(s, from).value.start ==> KeyMatchAt(s, p).None?
    ensures KeyExec(s, from).None? ==> forall p :: from <= p <= |s| ==> KeyMatchAt(s, p).None?
    decreases |s| - from
  {
    if KeyMatchAt(s, from).None? && from < |s| {
      KeyExecIsLeftmost(s, from + 1);
    }
  }

  /** The matches `keyRegex.exec` returns from `from` on, left to right. */
  function KeySpansFrom(s: string, from: nat): seq<KeySpan>
    requires from <= |s|
    decreases |s| - from
  {
    match KeyExec(s, from)
    case None => []
    case Some(m) => [m] + KeySpansFrom(s, m.close + 2)
  }

  /** One step of the key loop: the next match, then the matches after it. */
  lemma KeySpansStep(s: string, from: nat, m: KeySpan, next: nat)
    requires from <= |s| && KeyExec(s, from) == Some(m) && next == m.close + 2 <= |s|
    ensures KeySpansFrom(s, from) == [m] + KeySpansFrom(s, next)
  {
  }

  /**
   * `match[1]`: the key a match captures. Every match `KeyMatchAt` returns lies inside the text; a
   * span that does not would capture nothing.
   */
  function KeyOf(s: string, m: KeySpan): string {
    if m.start < m.close <= |s| then s[m.start + 1..m.close] else ""
  }

  function KeysOf(s: string, spans: seq<KeySpan>): (r: seq<string>)
    ensures |r| == |spans|
  {
    if spans == [] then [] else [KeyOf(s, spans[0])] + KeysOf(s, spans[1..])
  }

  lemma KeysOfCons(s: string, m: KeySpan, rest: seq<KeySpan>)
    ensures KeysOf(s, [m] + rest) == [KeyOf(s, m)] + KeysOf(s, rest)
  {
    assert ([m] + rest)[1..] == rest;
  }

  /** The keys `keyRegex` captures from `from` on, left to right. */
  function KeysFrom(s: string, from: nat): seq<string>
    requires from <= |s|
  {
    KeysOf(s, KeySpansFrom(s, from))
  }

  /** One step of the key loop: the key of the next match, then the keys after it. */
  lemma KeysFromStep(s: string, from: nat, m: KeySpan, next: nat)
    requires from <= |s| && KeyExec(s, from) == Some(m) && next == m.close + 2
    ensures from <= m.start && m.start + 1 < m.close && next <= |s|
    ensures KeysFrom(s, from) == [s[m.start + 1..m.close]] + KeysFrom(s, next)
  {
    assert KeyMatchAt(s, m.start) == Some(m);
    KeySpansStep(s, from, m, next);
    KeysOfCons(s, m, KeySpansFrom(s, next));
    assert KeyOf(s, m) == s[m.start + 1..m.close];
  }

  /** Every key captured is non-empty and holds no quote. */
  lemma {:induction false} KeysAreQuoteFree(s: string, from: nat)
    requires from <= |s|
    ensures forall k :: 0 <= k < |KeysFrom(s, from)| ==> KeysFrom(s, from)[k] != "" && '\'' !in KeysFrom(s, from)[k]
    decreases |s| - from
  {
    var r := KeyExec(s, from);
    if r.Some? {
      var m := r.value;
      var next := m.close + 2;
      KeysFromStep(s, from, m, next);
      KeyMatchAtSound(s, m.start);
      KeysAreQuoteFree(s, next);
      var key := s[m.start + 1..m.close];
      assert forall j :: 0 <= j < |key| ==> key[j] == s[m.start + 1 + j];
    } else {
      assert KeySpansFrom(s, from) == [];
    }
  }

  /** The keys found so far followed by the keys still to find are all the keys. */
  predicate KeysSoFar(body: string, keys: seq<string>, lastIndex: nat) {
    lastIndex <= |body| && keys + KeysFrom(body, lastIndex) == KeysFrom(body, 0)
  }

  lemma KeysSoFarStart(body: string)
    ensures KeysSoFar(body, [], 0)
  {
    assert [] + KeysFrom(body, 0) == KeysFrom(body, 0);
  }

  lemma KeysSoFarStep(body: string, keys: seq<string>, lastIndex: nat, m: KeySpan, next: nat)
    requires KeysSoFar(body, keys, lastIndex) && KeyExec(body, lastIndex) == Some(m) && next == m.close + 2
    ensures lastIndex < next && m.start + 1 < m.close && KeysSoFar(body, keys + [body[m.start + 1..m.close]], next)
  {
    KeysFromStep(body, lastIndex, m, next);
    assert keys + KeysFrom(body, lastIndex) == (keys + [body[m.start + 1..m.close]]) + KeysFrom(body, next);
  }

  lemma KeysSoFarDone(body: string, keys: seq<string>, lastIndex: nat)
    requires KeysSoFar(body, keys, lastIndex) && KeyExec(body, lastIndex).None?
    ensures keys == KeysFrom(body, 0)
  {
    assert KeysFrom(body, lastIndex) == [];
    assert keys + [] == keys;
  }

  /** The `while` loop over `keyRegex.exec(body)`, pushing each captured key. */
  method ExtractKeys(body: string) returns (keys: seq<string>)
    ensures keys == KeysFrom(body, 0)
  {
    keys := [];
    var lastIndex := 0;
    KeysSoFarStart(body);
    while true
      invariant KeysSoFar(body, keys, lastIndex)
      decreases |body| - lastIndex
    {
      var r := KeyExec(body, lastIndex);
      if r.None? {
        KeysSoFarDone(body, keys, lastIndex);
        break;
      }
      var m := r.value;
      var next := m.close + 2;
      KeysSoFarStep(body, keys, lastIndex, m, next);
      keys := keys + [body[m.start + 1..m.close]];
      lastIndex := next;
    }
  }

  // ---------------------------------------------------------------------------
  // The language pattern `/(\w+):\s*{([^}]+)}/g`

  /** A match of the language pattern: the name from `start` to `nameEnd`, the braces at `open` and `close`. */
  datatype LangSpan = LangSpan(start: nat, nameEnd: nat, open: nat, close: nat)

  /** One or more `\w`, `:`, any `\s`, `{`, one or more characters other than `}`, then `}`. */
  predicate LangShape(s: string, m: LangSpan) {
    m.start < m.nameEnd < m.open && m.open + 1 < m.close < |s|
    && (forall j :: m.start <= j < m.nameEnd ==> IsWordChar(s[j])) && s[m.nameEnd] == ':'
    && (forall j :: m.nameEnd < j < m.open ==> IsJsWhitespace(s[j])) && s[m.open] == '{'
    && (forall j :: m.open < j < m.close ==> s[j] != '}') && s[m.close] == '}'
  }

  /** The language pattern tried at `p`. */
  function LangMatchAt(s: string, p: nat): (r: Option<LangSpan>)
    requires p <= |s|
    ensures r.Some? ==> r.value.start == p < r.value.nameEnd < r.value.open && r.value.open + 1 < r.value.close < |s|
  {
    var e := WordEnd(s, p);
    if p < e && e < |s| && s[e] == ':' then
      var w := SpaceEnd(s, e + 1);
      if w < |s| && s[w] == '{' then
        var c := NextIndexOf(s, w + 1, '}');
        if w + 1 < c < |s| then Some(LangSpan(p, e, w, c)) else None
      else None
    else None
  }

  /** What the pattern matches at `p` has the pattern's shape. */
  lemma LangMatchAtSound(s: string, p: nat)
    requires p <= |s| && LangMatchAt(s, p).Some?
    ensures LangShape(s, LangMatchAt(s, p).value)
  {
    var m := LangMatchAt(s, p).value;
    WordEndSound(s, p);
    SpaceEndSound(s, m.nameEnd + 1);
    NextIndexOfSound(s, m.open + 1, '}');
  }

  /** Greedy runs leave no other way to match: a shorter name or space run ends where `:` or `{` cannot be. */
  lemma {:induction false} LangMatchAtComplete(s: string, m: LangSpan)
    requires LangShape(s, m)
    ensures LangMatchAt(s, m.start) == Some(m)
  {
    WordEndAt(s, m.start, m.nameEnd);
    SpaceEndAt(s, m.nameEnd + 1, m.open);
    NextIndexOfAt(s, m.open + 1, m.close, '}');
  }

  /** `langRegex.exec(file)` with `lastIndex = from`. */
  function LangExec(s: string, from: nat): (r: Option<LangSpan>)
    requires from <= |s|
    ensures r.Some? ==> from <= r.value.start < |s| && LangMatchAt(s, r.value.start) == r
    decreases |s| - from
  {
    var r := LangMatchAt(s, from);
    if r.Some? || from == |s| then r else LangExec(s, from + 1)
  }

  /** The match `exec` returns is the leftmost one, and `None` means there is none. */
  lemma {:induction false} LangExecIsLeftmost(s: string, from: nat)
    requires from <= |s|
    ensures LangExec(s, from).Some? ==> forall p :: from <= p < LangExec(s, from).value.start ==> LangMatchAt(s, p).None?
    ensures LangExec(s, from).None? ==> forall p :: from <= p <= |s| ==> LangMatchAt(s, p).None?
    decreases |s| - from
  {
    if LangMatchAt(s, from).None? && from < |s| {
      LangExecIsLeftmost(s, from + 1);
    }
  }

  /** The matches `langRegex.exec` returns from `from` on, left to right. */
  function LangSpansFrom(s: string, from: nat): seq<LangSpan>
    requires from <= |s|
    decreases |s| - from
  {
    match LangExec(s, from)
    case None => []
    case Some(m) => [m] + LangSpansFrom(s, m.close + 1)
  }

  /** One step of the language loop: the next match, then the matches after it. */
  lemma LangSpansStep(s: string, from: nat, m: LangSpan, next: nat)
    requires from <= |s| && LangExec(s, from) == Some(m) && next == m.close + 1 <= |s|
    ensures LangSpansFrom(s, from) == [m] + LangSpansFrom(s, next)
  {
  }

  /**
   * `[, lang, body]`: the two groups a match captures. Every match `LangMatchAt` returns lies
   * inside the text; a span that does not would capture nothing.
   */
  function Captured(s: string, m: LangSpan): (string, string) {
    if m.start <= m.nameEnd <= |s| && m.open < m.close <= |s| then (s[m.start..m.nameEnd], s[m.open + 1..m.close])
    else ("", "")
  }

  function CapturesOf(s: string, spans: seq<LangSpan>): (r: seq<(string, string)>)
    ensures |r| == |spans|
  {
    if spans == [] then [] else [Captured(s, spans[0])] + CapturesOf(s, spans[1..])
  }

  lemma CapturesOfCons(s: string, m: LangSpan, rest: seq<LangSpan>)
    ensures CapturesOf(s, [m] + rest) == [Captured(s, m)] + CapturesOf(s, rest)
  {
    assert ([m] + rest)[1..] == rest;
  }

  /** The (language, body) pairs `langRegex` captures from `from` on, left to right. */
  function LangMatchesFrom(s: string, from: nat): seq<(string, string)>
    requires from <= |s|
  {
    CapturesOf(s, LangSpansFrom(s, from))
  }

  /** The entries stored under the name `lang`. */
  function NamedAs(lang: string): ((string, string)) -> bool {
    (b: (string, string)) => b.0 == lang
  }

  /**
   * `langBlocks[lang] = body` on an object whose entries keep their first insertion's place: every
   * stored name stays where it is, and a name not stored yet is appended last.
   */
  function Assign(blocks: seq<(string, string)>, lang: string, body: string): (r: seq<(string, string)>)
    ensures |blocks| <= |r| <= |blocks| + 1
    ensures forall k :: 0 <= k < |blocks| ==> r[k].0 == blocks[k].0
    ensures |r| == |blocks| + 1 <==> forall k :: 0 <= k < |blocks| ==> blocks[k].0 != lang
    ensures |r| == |blocks| + 1 ==> r[|blocks|] == (lang, body)
  {
    match FindIndex(blocks, NamedAs(lang))
    case None => blocks + [(lang, body)]
    case Some(i) => blocks[i := (lang, body)]
  }

  /** The assignments of `matches` applied, in order, to the object `blocks`. */
  function AssignAll(blocks: seq<(string, string)>, matches: seq<(string, string)>): seq<(string, string)>
    decreases |matches|
  {
    if matches == [] then blocks else AssignAll(Assign(blocks, matches[0].0, matches[0].1), matches[1..])
  }

  /** `langBlocks[lang]`: the body stored under `lang`, if there is one. */
  function Lookup(blocks: seq<(string, string)>, lang: string): (r: Option<string>)
    ensures r.None? <==> forall k :: 0 <= k < |blocks| ==> blocks[k].0 != lang
  {
    match FindIndex(blocks, NamedAs(lang))
    case None => None
    case Some(i) => Some(blocks[i].1)
  }

  /** After `langBlocks[lang] = body`, `lang` reads `body` and every other name reads what it read before. */
  lemma AssignLookup(blocks: seq<(string, string)>, lang: string, body: string, x: string)
    ensures Lookup(Assign(blocks, lang, body), x) == if x == lang then Some(body) else Lookup(blocks, x)
  {
  }

  /** No name is stored twice. */
  predicate NamesDistinct(blocks: seq<(string, string)>) {
    forall i, j :: 0 <= i < j < |blocks| ==> blocks[i].0 != blocks[j].0
  }

  lemma AssignKeepsNamesDistinct(blocks: seq<(string, string)>, lang: string, body: string)
    requires NamesDistinct(blocks)
    ensures NamesDistinct(Assign(blocks, lang, body))
  {
  }

  /** The body of the last match of `lang`, if `lang` is matched at all. */
  function LastBody(matches: seq<(string, string)>, lang: string): Option<string>
    decreases |matches|
  {
    if matches == [] then None
    else
      var later := LastBody(matches[1..], lang);
      if later.Some? then later else if matches[0].0 == lang then Some(matches[0].1) else None
  }

  /**
   * After the assignments, a language reads the body of its last match, and a language never
   * matched reads what it read before.
   */
  lemma {:induction false} LastBlockWins(blocks: seq<(string, string)>, matches: seq<(string, string)>, lang: string)
    ensures Lookup(AssignAll(blocks, matches), lang) == if LastBody(matches, lang).Some? then LastBody(matches, lang) else Lookup(blocks, lang)
    decreases |matches|
  {
    if matches != [] {
      AssignLookup(blocks, matches[0].0, matches[0].1, lang);
      LastBlockWins(Assign(blocks, matches[0].0, matches[0].1), matches[1..], lang);
    }
  }

  /** No assignment stores a name twice. */
  lemma {:induction false} AssignAllKeepsNamesDistinct(blocks: seq<(string, string)>, matches: seq<(string, string)>)
    requires NamesDistinct(blocks)
    ensures NamesDistinct(AssignAll(blocks, matches))
    decreases |matches|
  {
    if matches != [] {
      AssignKeepsNamesDistinct(blocks, matches[0].0, matches[0].1);
      AssignAllKeepsNamesDistinct(Assign(blocks, matches[0].0, matches[0].1), matches[1..]);
    }
  }

  /** `langBlocks` once the loop is over: the object of all the file's language blocks. */
  function FileBlocks(file: string): seq<(string, string)> {
    AssignAll([], LangMatchesFrom(file, 0))
  }

  /** Each language of the file is stored once, reading the body of its last block. */
  lemma FileBlocksHoldLastBodies(file: string)
    ensures NamesDistinct(FileBlocks(file))
    ensures forall lang :: Lookup(FileBlocks(file), lang) == LastBody(LangMatchesFrom(file, 0), lang)
  {
    AssignAllKeepsNamesDistinct([], LangMatchesFrom(file, 0));
    forall lang ensures Lookup(FileBlocks(file), lang) == LastBody(LangMatchesFrom(file, 0), lang) {
      LastBlockWins([], LangMatchesFrom(file, 0), lang);
    }
  }

  /** What the loop has assigned so far, followed by the matches still to come, is the object `whole`. */
  predicate BlocksSoFar(file: string, blocks: seq<(string, string)>, lastIndex: nat, whole: seq<(string, string)>) {
    lastIndex <= |file| && AssignAll(blocks, LangMatchesFrom(file, lastIndex)) == whole
  }

  lemma BlocksSoFarStart(file: string)
    ensures BlocksSoFar(file, [], 0, FileBlocks(file))
  {
  }

  lemma AssignAllCons(blocks: seq<(string, string)>, pair: (string, string), rest: seq<(string, string)>)
    ensures AssignAll(blocks, [pair] + rest) == AssignAll(Assign(blocks, pair.0, pair.1), rest)
  {
    assert ([pair] + rest)[1..] == rest;
  }

  /** Assigning the first match's pair leaves the remaining matches to assign. */
  lemma AssignFirstCapture(file: string, blocks: seq<(string, string)>, m: LangSpan, next: nat, lang: string, body: string,
                           matches: seq<(string, string)>, whole: seq<(string, string)>)
    requires next <= |file| && matches == CapturesOf(file, [m] + LangSpansFrom(file, next))
    requires AssignAll(blocks, matches) == whole
    requires Captured(file, m) == (lang, body)
    ensures AssignAll(Assign(blocks, lang, body), LangMatchesFrom(file, next)) == whole
  {
    var rest := LangSpansFrom(file, next);
    CapturesOfCons(file, m, rest);
    AssignAllCons(blocks, (lang, body), CapturesOf(file, rest));
  }

  /** The captures from `from` on, once `exec` has returned `m` there. */
  lemma LangMatchesStep(s: string, from: nat, m: LangSpan, next: nat)
    requires from <= |s| && LangExec(s, from) == Some(m) && next == m.close + 1 <= |s|
    ensures LangMatchesFrom(s, from) == CapturesOf(s, [m] + LangSpansFrom(s, next))
  {
    LangSpansStep(s, from, m, next);
  }

  /** The groups of a match `exec` returned. */
  lemma CapturedGroups(s: string, m: LangSpan)
    requires m.start < m.nameEnd < m.open && m.open + 1 < m.close < |s|
    ensures Captured(s, m) == (s[m.start..m.nameEnd], s[m.open + 1..m.close])
  {
  }

  lemma BlocksSoFarStep(file: string, blocks: seq<(string, string)>, lastIndex: nat, m: LangSpan, next: nat,
                        whole: seq<(string, string)>)
    requires BlocksSoFar(file, blocks, lastIndex, whole) && LangExec(file, lastIndex) == Some(m) && next == m.close + 1
    ensures m.start < m.nameEnd && m.open + 1 < m.close < |file| && lastIndex < next
    ensures BlocksSoFar(file, Assign(blocks, file[m.start..m.nameEnd], file[m.open + 1..m.close]), next, whole)
  {
    assert LangMatchAt(file, m.start) == Some(m);
    LangMatchesStep(file, lastIndex, m, next);
    CapturedGroups(file, m);
    AssignFirstCapture(file, blocks, m, next, file[m.start..m.nameEnd], file[m.open + 1..m.close],
                       LangMatchesFrom(file, lastIndex), whole);
  }

  lemma BlocksSoFarDone(file: string, blocks: seq<(string, string)>, lastIndex: nat, whole: seq<(string, string)>)
    requires BlocksSoFar(file, blocks, lastIndex, whole) && LangExec(file, lastIndex).None?
    ensures blocks == whole
  {
    assert LangSpansFrom(file, lastIndex) == [];
  }

  /** The `while` loop over `langRegex.exec(file)`, assigning each body to its language. */
  method ExtractBlocks(file: string) returns (blocks: seq<(string, string)>)
    ensures blocks == FileBlocks(file)
  {
    blocks := [];
    var lastIndex := 0;
    BlocksSoFarStart(file);
    while true
      invariant BlocksSoFar(file, blocks, lastIndex, FileBlocks(file))
      decreases |file| - lastIndex
    {
      var r := LangExec(file, lastIndex);
      if r.None? {
        BlocksSoFarDone(file, blocks, lastIndex, FileBlocks(file));
        break;
      }
      var m := r.value;
      var next := m.close + 1;
      BlocksSoFarStep(file, blocks, lastIndex, m, next, FileBlocks(file));
      blocks := Assign(blocks, file[m.start..m.nameEnd], file[m.open + 1..m.close]);
      lastIndex := next;
    }
  }

  // ---------------------------------------------------------------------------
  // Duplicate keys

  function EqualTo(key: string): string -> bool {
    (k: string) => k == key
  }

  /** `keys.indexOf(key)`: the first index holding `key`, or -1. */
  function IndexOf(keys: seq<string>, key: string): (r: int)
    ensures -1 <= r < |keys|
    ensures r == -1 <==> key !in keys
    ensures r >= 0 ==> keys[r] == key && forall j :: 0 <= j < r ==> keys[j] != key
  {
    match FindIndex(keys, EqualTo(key))
    case None => -1
    case Some(i) => i
  }

  /** The filter's test at `idx` holds exactly when the key occurs before `idx`. */
  lemma RepeatIsSeenBefore(keys: seq<string>, idx: nat)
    requires idx < |keys|
    ensures IndexOf(keys, keys[idx]) != idx <==> keys[idx] in keys[..idx]
  {
    var x := keys[idx];
    var r := IndexOf(keys, x);
    if r != idx {
      assert keys[..idx][r] == x;
    }
    if x in keys[..idx] {
      var j :| 0 <= j < idx && keys[..idx][j] == x;
      assert keys[j] == x;
    }
  }

  /** `keys.filter((key, idx) => keys.indexOf(key) !== idx)` over the first `n` keys. */
  function DuplicatesUpTo(keys: seq<string>, n: nat): seq<string>
    requires n <= |keys|
  {
    if n == 0 then []
    else DuplicatesUpTo(keys, n - 1) + (if IndexOf(keys, keys[n - 1]) != n - 1 then [keys[n - 1]] else [])
  }

  /** `duplicates`: every occurrence of a key but its first. */
  function DuplicateList(keys: seq<string>): seq<string> {
    DuplicatesUpTo(keys, |keys|)
  }

  /** The number of times a key occurs among the first `n` keys, one less for the kept first occurrence. */
  function Repeats(keys: seq<string>, n: nat, x: string): nat
    requires n <= |keys|
  {
    var c := multiset(keys[..n])[x];
    if c == 0 then 0 else c - 1
  }

  /** The last of the first `n` keys joins the filtered list exactly when it occurred before. */
  lemma DuplicatesLast(keys: seq<string>, m: nat, n: nat)
    requires n == m + 1 <= |keys|
    ensures DuplicatesUpTo(keys, n) == DuplicatesUpTo(keys, m) + (if keys[m] in keys[..m] then [keys[m]] else [])
  {
    RepeatIsSeenBefore(keys, m);
  }

  lemma PrefixLast(keys: seq<string>, m: nat, n: nat)
    requires n == m + 1 <= |keys|
    ensures multiset(keys[..n]) == multiset(keys[..m]) + multiset{keys[m]}
  {
    assert keys[..n] == keys[..m] + [keys[m]];
  }

  lemma InIffCounted(xs: seq<string>, x: string)
    ensures x in xs <==> multiset(xs)[x] > 0
  {
  }

  /** The filtered list holds a key once for each occurrence after the first. */
  lemma {:induction false} DuplicateCounts(keys: seq<string>, n: nat, x: string)
    requires n <= |keys|
    ensures multiset(DuplicatesUpTo(keys, n))[x] == Repeats(keys, n, x)
  {
    if n == 0 {
      assert keys[..0] == [];
    } else {
      var m := n - 1;
      var last := keys[m];
      DuplicateCounts(keys, m, x);
      DuplicatesLast(keys, m, n);
      PrefixLast(keys, m, n);
      InIffCounted(keys[..m], last);
      var c0 := multiset(keys[..m])[x];
      var c1 := multiset(keys[..n])[x];
      var d0 := multiset(DuplicatesUpTo(keys, m))[x];
      var d1 := multiset(DuplicatesUpTo(keys, n))[x];
      assert d0 == if c0 == 0 then 0 else c0 - 1;
      if last in keys[..m] {
        assert multiset(DuplicatesUpTo(keys, n)) == multiset(DuplicatesUpTo(keys, m)) + multiset{last};
        if last == x {
          assert c1 == c0 + 1 && d1 == d0 + 1 && c0 > 0;
        } else {
          assert c1 == c0 && d1 == d0;
        }
      } else {
        assert DuplicatesUpTo(keys, n) == DuplicatesUpTo(keys, m);
        if last == x {
          assert c0 == 0 && c1 == 1 && d1 == 0;
        } else {
          assert c1 == c0 && d1 == d0;
        }
      }
    }
  }

  /** `[...new Set(xs)]`: the values in the order of their first appearance. */
  function SetOrder(xs: seq<string>): seq<string> {
    if xs == [] then []
    else
      var n := |xs| - 1;
      SetOrder(xs[..n]) + (if xs[n] in xs[..n] then [] else [xs[n]])
  }

  lemma SetOrderAppend(xs: seq<string>, y: string)
    ensures SetOrder(xs + [y]) == SetOrder(xs) + (if y in xs then [] else [y])
  {
    var ys := xs + [y];
    assert ys[..|xs|] == xs && ys[|xs|] == y;
  }

  /** A Set holds each value once, and exactly the values added to it. */
  lemma {:induction false} SetOrderMembers(xs: seq<string>)
    ensures forall x :: x in SetOrder(xs) <==> x in xs
    ensures forall i, j :: 0 <= i < j < |SetOrder(xs)| ==> SetOrder(xs)[i] != SetOrder(xs)[j]
  {
    if xs != [] {
      var n := |xs| - 1;
      SetOrderMembers(xs[..n]);
      assert xs == xs[..n] + [xs[n]];
    }
  }

  /** The keys printed for a language: the duplicates, each once. */
  function Reported(keys: seq<string>): seq<string> {
    SetOrder(DuplicateList(keys))
  }

  /** The first `n` keys in the reference order: a key is listed where it is seen for the second time. */
  function SecondOccurrencesUpTo(keys: seq<string>, n: nat): seq<string>
    requires n <= |keys|
  {
    if n == 0 then []
    else SecondOccurrencesUpTo(keys, n - 1) + (if multiset(keys[..n - 1])[keys[n - 1]] == 1 then [keys[n - 1]] else [])
  }

  function SecondOccurrences(keys: seq<string>): seq<string> {
    SecondOccurrencesUpTo(keys, |keys|)
  }

  /** A duplicate joins the Set when it is the key's first duplicate, that is its second occurrence. */
  lemma SetOrderStep(prev: seq<string>, last: string, third: seq<string>, before: nat)
    requires SetOrder(prev) == third
    requires before > 0 && multiset(prev)[last] == before - 1
    ensures SetOrder(prev + [last]) == third + (if before == 1 then [last] else [])
  {
    SetOrderAppend(prev, last);
    InIffCounted(prev, last);
  }

  /** What the `n`-th key adds to the Set: itself when it is the key's second occurrence. */
  function Added(keys: seq<string>, n: nat): seq<string>
    requires 0 < n <= |keys|
  {
    if multiset(keys[..n - 1])[keys[n - 1]] == 1 then [keys[n - 1]] else []
  }

  /** Both the Set of the filtered list and the reference order grow by `Added` at each key. */
  lemma OrderStep(keys: seq<string>, m: nat, n: nat)
    requires n == m + 1 <= |keys|
    ensures SetOrder(DuplicatesUpTo(keys, n)) == SetOrder(DuplicatesUpTo(keys, m)) + Added(keys, n)
    ensures SecondOccurrencesUpTo(keys, n) == SecondOccurrencesUpTo(keys, m) + Added(keys, n)
  {
    var last := keys[m];
    var prev := DuplicatesUpTo(keys, m);
    var before := multiset(keys[..m])[last];
    DuplicatesLast(keys, m, n);
    InIffCounted(keys[..m], last);
    if last in keys[..m] {
      assert DuplicatesUpTo(keys, n) == prev + [last];
      DuplicateCounts(keys, m, last);
      SetOrderStep(prev, last, SetOrder(prev), before);
    } else {
      assert before == 0;
      assert DuplicatesUpTo(keys, n) == prev;
    }
  }

  /** The Set keeps each duplicate where it was first added, which is the key's second occurrence. */
  lemma {:induction false} ReportedInSecondOccurrenceOrder(keys: seq<string>, n: nat)
    requires n <= |keys|
    ensures SetOrder(DuplicatesUpTo(keys, n)) == SecondOccurrencesUpTo(keys, n)
  {
    if n > 0 {
      var m := n - 1;
      OrderStep(keys, m, n);
      ReportedInSecondOccurrenceOrder(keys, m);
    }
  }

  /** The keys are printed in the order of their second occurrence. */
  lemma ReportedIsSecondOccurrences(keys: seq<string>)
    ensures Reported(keys) == SecondOccurrences(keys)
  {
    ReportedInSecondOccurrenceOrder(keys, |keys|);
  }

  /**
   * A key is printed exactly when it occurs at least twice, no key is printed twice, and the
   * filtered list holds each key one time fewer than it occurs.
   */
  lemma ReportedKeys(keys: seq<string>)
    ensures forall x :: x in Reported(keys) <==> multiset(keys)[x] >= 2
    ensures forall i, j :: 0 <= i < j < |Reported(keys)| ==> Reported(keys)[i] != Reported(keys)[j]
    ensures forall x :: multiset(DuplicateList(keys))[x] == if multiset(keys)[x] == 0 then 0 else multiset(keys)[x] - 1
  {
    assert keys[..|keys|] == keys;
    SetOrderMembers(DuplicateList(keys));
    forall x ensures multiset(DuplicateList(keys))[x] == if multiset(keys)[x] == 0 then 0 else multiset(keys)[x] - 1 {
      DuplicateCounts(keys, |keys|, x);
    }
  }

  lemma {:induction false} NoRepeatsUpTo(keys: seq<string>, n: nat)
    requires n <= |keys|
    requires forall i, j :: 0 <= i < j < |keys| ==> keys[i] != keys[j]
    ensures DuplicatesUpTo(keys, n) == []
  {
    if n > 0 {
      var m := n - 1;
      NoRepeatsUpTo(keys, m);
      DuplicatesLast(keys, m, n);
      assert keys[m] !in keys[..m];
    }
  }

  /** A language whose keys are all different has an empty filtered list, so nothing is printed for it. */
  lemma NoDuplicatesPrintsNothing(keys: seq<string>)
    requires forall i, j :: 0 <= i < j < |keys| ==> keys[i] != keys[j]
    ensures DuplicateList(keys) == []
  {
    NoRepeatsUpTo(keys, |keys|);
  }

  // ---------------------------------------------------------------------------
  // The report

  /** What is printed for one language: its name and its duplicate keys. */
  datatype Finding = Finding(lang: string, keys: seq<string>)

  /** The keys of a language block. */
  function BlockKeys(block: (string, string)): seq<string> {
    KeysFrom(block.1, 0)
  }

  /** `if (duplicates.length)`: the language's block has a key that occurs twice. */
  predicate HasDuplicate(block: (string, string)) {
    |DuplicateList(BlockKeys(block))| > 0
  }

  /** The finding printed for a language block. */
  function FindingOf(block: (string, string)): Finding {
    Finding(block.0, Reported(BlockKeys(block)))
  }

  /** The languages, in the object's order, that have a duplicate key, each with the keys printed for it. */
  function Report(blocks: seq<(string, string)>): (r: seq<Finding>)
    ensures |r| <= |blocks|
  {
    if blocks == [] then []
    else
      var n := |blocks| - 1;
      Report(blocks[..n]) + (if HasDuplicate(blocks[n]) then [FindingOf(blocks[n])] else [])
  }

  /** What the whole run prints for a translation file's text. */
  function FileReport(file: string): seq<Finding> {
    Report(FileBlocks(file))
  }

  /** Each block, in order, adds its finding when it has a duplicate key. */
  lemma ReportStep(blocks: seq<(string, string)>, i: nat, next: nat)
    requires next == i + 1 <= |blocks|
    ensures Report(blocks[..next]) == Report(blocks[..i]) + (if HasDuplicate(blocks[i]) then [FindingOf(blocks[i])] else [])
  {
    assert blocks[..next][..i] == blocks[..i];
  }

  /** A finding in the report of the first `n` blocks comes from one of them that has a duplicate key. */
  lemma {:induction false} ReportMember(blocks: seq<(string, string)>, n: nat, f: Finding)
    requires n <= |blocks| && f in Report(blocks[..n])
    ensures exists k :: 0 <= k < n && HasDuplicate(blocks[k]) && f == FindingOf(blocks[k])
  {
    var m := n - 1;
    ReportStep(blocks, m, n);
    if f in Report(blocks[..m]) {
      ReportMember(blocks, m, f);
    } else {
      assert HasDuplicate(blocks[m]) && f == FindingOf(blocks[m]);
    }
  }

  /** Each of the first `n` blocks that has a duplicate key has its finding in their report. */
  lemma {:induction false} ReportHas(blocks: seq<(string, string)>, n: nat, k: nat)
    requires k < n <= |blocks| && HasDuplicate(blocks[k])
    ensures FindingOf(blocks[k]) in Report(blocks[..n])
  {
    var m := n - 1;
    ReportStep(blocks, m, n);
    var prev := Report(blocks[..m]);
    var added := if HasDuplicate(blocks[m]) then [FindingOf(blocks[m])] else [];
    assert Report(blocks[..n]) == prev + added;
    var f := FindingOf(blocks[k]);
    if k < m {
      ReportHas(blocks, m, k);
      var j :| 0 <= j < |prev| && prev[j] == f;
      assert (prev + added)[j] == f;
    } else {
      assert k == m;
      assert (prev + added)[|prev|] == f;
    }
  }

  /**
   * A language is in the report exactly when its block has a duplicate key, and it is listed with
   * its printed keys.
   */
  lemma ReportIsExact(blocks: seq<(string, string)>)
    ensures forall f :: f in Report(blocks) ==>
      exists k :: 0 <= k < |blocks| && HasDuplicate(blocks[k]) && f == FindingOf(blocks[k])
    ensures forall k :: 0 <= k < |blocks| && HasDuplicate(blocks[k]) ==> FindingOf(blocks[k]) in Report(blocks)
  {
    assert blocks[..|blocks|] == blocks;
    forall f | f in Report(blocks)
      ensures exists k :: 0 <= k < |blocks| && HasDuplicate(blocks[k]) && f == FindingOf(blocks[k])
    {
      ReportMember(blocks, |blocks|, f);
    }
    forall k | 0 <= k < |blocks| && HasDuplicate(blocks[k]) ensures FindingOf(blocks[k]) in Report(blocks) {
      ReportHas(blocks, |blocks|, k);
    }
  }

  /** Every language in the report has at least one printed key. */
  lemma ReportedKeysNotEmpty(block: (string, string))
    requires HasDuplicate(block)
    ensures FindingOf(block).keys != []
  {
    SetOrderMembers(DuplicateList(BlockKeys(block)));
    assert DuplicateList(BlockKeys(block))[0] in Reported(BlockKeys(block));
  }

  /**
   * The run: the language blocks of the file, then for each of them its keys and their
   * duplicates, with a finding for each language that has any.
   */
  method FindDuplicates(file: string) returns (report: seq<Finding>)
    ensures report == FileReport(file)
  {
    var blocks := ExtractBlocks(file);
    report := [];
    var i := 0;
    while i < |blocks|
      invariant i <= |blocks|
      invariant report == Report(blocks[..i])
    {
      var (lang, body) := blocks[i];
      var keys := ExtractKeys(body);
      var duplicates := DuplicateList(keys);
      var next := i + 1;
      ReportStep(blocks, i, next);
      if |duplicates| > 0 {
        report := report + [Finding(lang, Reported(keys))];
      }
      i := next;
    }
    assert blocks[..|blocks|] == blocks;
  }
}
