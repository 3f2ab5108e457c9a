/** Rewriting the erase sequences of a console line, against a one-pass stack editor. */
module Backspaces {
  import opened Wrappers

  const BS := '\U{0008}'
  const ESC := '\U{001B}'

  // ---- the rewriting

  /** Backspace, then "erase to end of line". */
  predicate LineErase(s: string, i: nat) {
    i + 4 <= |s| && s[i] == BS && s[i + 1] == ESC && s[i + 2] == '[' && s[i + 3] == 'K'
  }

  /** Backspace, space, backspace. */
  predicate SpaceErase(s: string, i: nat) {
    i + 3 <= |s| && s[i] == BS && s[i + 1] == ' ' && s[i + 2] == BS
  }

  /** Length of the match of "any character but a newline, then an erase sequence" at i, or 0. */
  function HitLength(s: string, i: nat): (n: nat)
    ensures i + n <= |s| || n == 0
  {
    if i < |s| && s[i] != '\n' && LineErase(s, i + 1) then 5
    else if i < |s| && s[i] != '\n' && SpaceErase(s, i + 1) then 4
    else 0
  }

  /** Leftmost match at or after a position. */
  function FirstHit(s: string, at: nat): (hit: Option<nat>)
    requires at <= |s|
    ensures hit.Some? ==> at <= hit.value < |s| && HitLength(s, hit.value) > 0
    decreases |s| - at
  {
    if at == |s| then None else if HitLength(s, at) > 0 then Some(at) else FirstHit(s, at + 1)
  }

  function Cut(s: string, i: nat, n: nat): string
    requires i + n <= |s|
  {
    s[..i] + s[i + n..]
  }

  /** One substitution of the leftmost match. */
  function SubOnce(s: string): string {
    var hit := FirstHit(s, 0);
    if hit.None? then s else Cut(s, hit.value, HitLength(s, hit.value))
  }

  /** Removes every erase sequence, left to right. */
  function Strip(s: string): string
    decreases |s|
  {
    if s == [] then []
    else if LineErase(s, 0) then Strip(s[4..])
    else if SpaceErase(s, 0) then Strip(s[3..])
    else [s[0]] + Strip(s[1..])
  }

  function Applied(s: string): string
    decreases |s|
  {
    var hit := FirstHit(s, 0);
    if hit.None? then Strip(s) else Applied(Cut(s, hit.value, HitLength(s, hit.value)))
  }

  /** The loop ends because every round but the last shortens the string. */
  method ApplyBackspace(input: string) returns (output: string)
    ensures output == Applied(input)
  {
    var s := input;
    while true
      invariant Applied(s) == Applied(input)
      decreases |s|
    {
      var rewritten := SubOnce(s);
      if |s| == |rewritten| {
        return Strip(rewritten);
      }
      s := rewritten;
    }
  }

  // ---- the editor

  datatype Key = Plain(c: char) | EraseLine | EraseSpace

  predicate Typable(keys: seq<Key>) {
    forall i :: 0 <= i < |keys| && keys[i].Plain? ==> keys[i].c != BS && keys[i].c != ESC
  }

  function EncodeKey(key: Key): string {
    match key
    case Plain(c) => [c]
    case EraseLine => [BS, ESC, '[', 'K']
    case EraseSpace => [BS, ' ', BS]
  }

  function Encode(keys: seq<Key>): string {
    if keys == [] then [] else EncodeKey(keys[0]) + Encode(keys[1..])
  }

  /** A character is pushed, an erase pops; with nothing to pop it does nothing. */
  function Edit(keys: seq<Key>, stack: string): string
    decreases |keys|
  {
    if keys == [] then stack
    else if keys[0].Plain? then Edit(keys[1..], stack + [keys[0].c])
    else Edit(keys[1..], if stack == [] then [] else stack[..|stack| - 1])
  }

  /** With this many characters in the line, no erase finds its line empty. */
  predicate Balanced(keys: seq<Key>, depth: nat)
    decreases |keys|
  {
    keys == []
    || (if keys[0].Plain? then Balanced(keys[1..], if keys[0].c == '\n' then 0 else depth + 1)
        else depth > 0 && Balanced(keys[1..], depth - 1))
  }

  /** How many characters stand behind the last newline. */
  function LineLength(text: string): (n: nat)
    ensures n <= |text|
  {
    if text == [] || text[|text| - 1] == '\n' then 0 else LineLength(text[..|text| - 1]) + 1
  }

  predicate PlainText(text: string) {
    forall i :: 0 <= i < |text| ==> text[i] != BS && text[i] != ESC
  }

  /** No match lies where no erase sequence starts. */
  lemma {:induction false} NoHitInPlain(text: string, rest: string, at: nat)
    requires PlainText(text) && at < |text| && (rest == [] || rest[0] == BS)
    ensures rest == [] ==> FirstHit(text + rest, at) == None
    ensures FirstHit(text + rest, at) == FirstHit(text + rest, |text| - 1)
    decreases |text| - at
  {
    var s := text + rest;
    if at < |text| - 1 {
      assert s[at + 1] == text[at + 1];
      NoHitInPlain(text, rest, at + 1);
    } else if rest == [] {
      assert FirstHit(s, |s|) == None;
    }
  }

  /** The leftmost match is the last typed character with the erase that follows it. */
  lemma FirstEraseIsHit(text: string, erase: Key, rest: string)
    requires PlainText(text) && text != [] && text[|text| - 1] != '\n' && !erase.Plain?
    ensures var s := text + (EncodeKey(erase) + rest);
            && FirstHit(s, 0) == Some(|text| - 1)
            && Cut(s, |text| - 1, HitLength(s, |text| - 1)) == text[..|text| - 1] + rest
  {
    var tail := EncodeKey(erase) + rest;
    var s, i := text + tail, |text| - 1;
    NoHitInPlain(text, tail, 0);
    assert s[i] == text[i] && s[i + 1] == BS && s[i + 2] == tail[1] && s[i + 3] == tail[2];
    if erase.EraseLine? {
      assert s[i + 4] == tail[3] && LineErase(s, i + 1);
      assert s[i + 5..] == rest;
    } else {
      assert SpaceErase(s, i + 1);
      assert s[i + 4..] == rest;
    }
    assert s[..i] == text[..i];
  }

  lemma {:induction false} StripPlain(text: string)
    requires PlainText(text)
    ensures Strip(text) == text
  {
    if text != [] {
      StripPlain(text[1..]);
    }
  }

  lemma TypedNext(text: string, c: char, rest: string)
    ensures text + ([c] + rest) == text + [c] + rest
    ensures LineLength(text + [c]) == if c == '\n' then 0 else LineLength(text) + 1
  {
    assert (text + [c])[..|text|] == text;
  }

  /** With some plain text already typed, rewriting the whole line is editing the keys that follow. */
  lemma {:induction false} RewritesAs(text: string, keys: seq<Key>)
    requires PlainText(text) && Typable(keys) && Balanced(keys, LineLength(text))
    ensures Applied(text + Encode(keys)) == Edit(keys, text)
    decreases |keys|
  {
    if keys == [] {
      assert text + Encode(keys) == text;
      StripPlain(text);
      if text == [] {
        assert FirstHit(text, 0) == None;
      } else {
        assert text + [] == text;
        NoHitInPlain(text, [], 0);
      }
    } else if keys[0].Plain? {
      TypedNext(text, keys[0].c, Encode(keys[1..]));
      RewritesAs(text + [keys[0].c], keys[1..]);
    } else {
      FirstEraseIsHit(text, keys[0], Encode(keys[1..]));
      RewritesAs(text[..|text| - 1], keys[1..]);
    }
  }

  /** On anything a terminal can echo, where no erase goes past the start of the line, the rewriting is the editor. */
  lemma BackspaceIsEditor(keys: seq<Key>)
    requires Typable(keys) && Balanced(keys, 0)
    ensures Applied(Encode(keys)) == Edit(keys, [])
  {
    assert [] + Encode(keys) == Encode(keys);
    RewritesAs([], keys);
  }

  // ---- erases at the start of the line

  lemma {:induction false} NoHitFrom(s: string, at: nat, k: nat)
    requires at <= k <= |s| && forall i :: at <= i < k ==> HitLength(s, i) == 0
    ensures FirstHit(s, at) == FirstHit(s, k)
    decreases k - at
  {
    if at < k {
      NoHitFrom(s, at + 1, k);
    }
  }

  /** The text is at least this long a prefix of keystrokes and then the rest: its first match is at k. */
  lemma HitAt(s: string, k: nat)
    requires k < |s| && HitLength(s, k) > 0 && forall i :: 0 <= i < k ==> HitLength(s, i) == 0
    ensures Applied(s) == Applied(Cut(s, k, HitLength(s, k)))
  {
    NoHitFrom(s, 0, k);
  }

  predicate Erases(keys: seq<Key>) {
    forall i :: 0 <= i < |keys| ==> !keys[i].Plain?
  }

  /** Inside an erase another backspace stands at most at its end. */
  ghost predicate Quiet(left: string) {
    && left != [] && left[|left| - 1] != '\n'
    && (forall i :: 1 <= i < |left| && left[i] == BS ==> i + 1 == |left|)
  }

  lemma EraseIsQuiet(erase: Key, j: nat)
    requires !erase.Plain? && 1 <= j <= |EncodeKey(erase)|
    ensures Quiet(EncodeKey(erase)[..j])
  {
  }

  lemma EraseShifts(left: string, tail: string)
    ensures LineErase(tail, 0) ==> LineErase(left + tail, |left|)
    ensures SpaceErase(tail, 0) ==> SpaceErase(left + tail, |left|) && !LineErase(left + tail, |left|)
  {
    var s, j := left + tail, |left|;
    assert |tail| > 0 ==> s[j] == tail[0];
    assert |tail| > 1 ==> s[j + 1] == tail[1];
    assert |tail| > 2 ==> s[j + 2] == tail[2];
    assert |tail| > 3 ==> s[j + 3] == tail[3];
  }

  lemma PartsOf(left: string, tail: string, n: nat)
    requires left != [] && n <= |tail|
    ensures (left + tail)[..|left| - 1] == left[..|left| - 1] && (left + tail)[|left| + n..] == tail[n..]
  {
  }

  lemma QuietBefore(s: string, left: string)
    requires Quiet(left) && |left| < |s| && s[..|left|] == left && s[|left|] == BS
    requires |left| + 1 < |s| && s[|left| + 1] != BS
    ensures forall i :: 0 <= i < |left| - 1 ==> HitLength(s, i) == 0
    ensures s[|left| - 1] != '\n'
  {
    assert forall i :: 0 <= i < |left| ==> s[i] == left[i];
    forall i | 0 <= i < |left| - 1 ensures HitLength(s, i) == 0 {
      assert left[i + 1] == BS ==> i + 2 == |left|;
    }
  }

  /** The leftmost match is the last character before the first erase. */
  lemma FirstHitAfter(left: string, tail: string, n: nat)
    requires Quiet(left) && n <= |tail| && (if n == 4 then LineErase(tail, 0) else n == 3 && SpaceErase(tail, 0))
    ensures var s, k := left + tail, |left| - 1;
            && (forall i :: 0 <= i < k ==> HitLength(s, i) == 0) && HitLength(s, k) == n + 1
            && Cut(s, k, n + 1) == left[..k] + tail[n..]
  {
    var s := left + tail;
    EraseShifts(left, tail);
    PartsOf(left, tail, n);
    QuietBefore(s, left);
  }

  lemma EatsAfter(left: string, tail: string, n: nat)
    requires Quiet(left) && n <= |tail| && (if n == 4 then LineErase(tail, 0) else n == 3 && SpaceErase(tail, 0))
    ensures Applied(left + tail) == Applied(left[..|left| - 1] + tail[n..])
  {
    FirstHitAfter(left, tail, n);
    HitAt(left + tail, |left| - 1);
  }

  lemma EraseThenRest(erase: Key, rest: string)
    requires !erase.Plain?
    ensures var tail, n := EncodeKey(erase) + rest, |EncodeKey(erase)|;
            n <= |tail| && tail[n..] == rest && (if n == 4 then LineErase(tail, 0) else n == 3 && SpaceErase(tail, 0))
  {
  }

  /** With j bytes of a leading erase left, the next erase deletes the last of them, whatever its form. */
  lemma NextEraseEats(first: Key, j: nat, next: Key, rest: string)
    requires !first.Plain? && !next.Plain? && 1 <= j <= |EncodeKey(first)|
    ensures Applied(EncodeKey(first)[..j] + (EncodeKey(next) + rest)) == Applied(EncodeKey(first)[..j - 1] + rest)
  {
    EraseIsQuiet(first, j);
    EraseThenRest(next, rest);
    EatsAfter(EncodeKey(first)[..j], EncodeKey(next) + rest, |EncodeKey(next)|);
    assert EncodeKey(first)[..j][..j - 1] == EncodeKey(first)[..j - 1];
  }

  lemma {:induction false} ErasesEat(first: Key, j: nat, keys: seq<Key>, rest: string)
    requires !first.Plain? && Erases(keys) && |keys| <= j <= |EncodeKey(first)|
    ensures Applied(EncodeKey(first)[..j] + (Encode(keys) + rest)) == Applied(EncodeKey(first)[..j - |keys|] + rest)
    decreases |keys|
  {
    if keys == [] {
      assert Encode(keys) + rest == rest;
    } else {
      assert Encode(keys) + rest == EncodeKey(keys[0]) + (Encode(keys[1..]) + rest);
      NextEraseEats(first, j, keys[0], Encode(keys[1..]) + rest);
      ErasesEat(first, j - 1, keys[1..], rest);
    }
  }

  lemma Joined(a: string, b: string, c: string)
    ensures a + b + c == a + (b + c)
  {
  }

  lemma TailOfSum<T>(a: seq<T>, b: seq<T>)
    requires a != []
    ensures (a + b)[0] == a[0] && (a + b)[1..] == a[1..] + b
  {
  }

  lemma {:induction false} EncodeConcat(a: seq<Key>, b: seq<Key>)
    ensures Encode(a + b) == Encode(a) + Encode(b)
  {
    if a == [] {
      assert a + b == b;
    } else {
      TailOfSum(a, b);
      EncodeConcat(a[1..], b);
      Joined(EncodeKey(a[0]), Encode(a[1..]), Encode(b));
    }
  }

  lemma Regrouped(all: string, first: string, rest: string, eaten: string, later: string, text: string)
    requires all == first + rest && rest == eaten + later
    ensures all + text == first + (eaten + (later + text))
  {
    Joined(first, rest, text);
    Joined(eaten, later, text);
  }

  lemma RestSplits<T>(s: seq<T>, n: nat)
    requires 1 <= n <= |s|
    ensures s[1..] == s[1..n] + s[n..]
  {
  }

  lemma EncodeRest(keys: seq<Key>, n: nat)
    requires 1 <= n <= |keys|
    ensures Encode(keys[1..]) == Encode(keys[1..n]) + Encode(keys[n..])
  {
    RestSplits(keys, n);
    EncodeConcat(keys[1..n], keys[n..]);
  }

  lemma EncodeParts(keys: seq<Key>, n: nat, text: string)
    requires 1 <= n <= |keys|
    ensures Encode(keys) + text == EncodeKey(keys[0]) + (Encode(keys[1..n]) + (Encode(keys[n..]) + text))
  {
    EncodeRest(keys, n);
    Regrouped(Encode(keys), EncodeKey(keys[0]), Encode(keys[1..]), Encode(keys[1..n]), Encode(keys[n..]), text);
  }

  /** The first erase and one more for each of its bytes vanish together. */
  lemma GroupVanishes(keys: seq<Key>, text: string)
    requires Erases(keys) && keys != [] && |keys| > |EncodeKey(keys[0])|
    ensures Applied(Encode(keys) + text) == Applied(Encode(keys[|EncodeKey(keys[0])| + 1..]) + text)
  {
    var bytes, n := EncodeKey(keys[0]), |EncodeKey(keys[0])| + 1;
    EncodeParts(keys, n, text);
    ErasesEat(keys[0], |bytes|, keys[1..n], Encode(keys[n..]) + text);
    assert bytes[..|bytes|] == bytes && bytes[..0] + (Encode(keys[n..]) + text) == Encode(keys[n..]) + text;
  }

  lemma NothingAfter(text: string)
    ensures Encode([]) + text == text
  {
  }

  /** Fewer erases leave the rest of the first one. */
  lemma GroupLeaves(keys: seq<Key>, text: string)
    requires Erases(keys) && keys != [] && |keys| <= |EncodeKey(keys[0])|
    ensures Applied(Encode(keys) + text) == Applied(EncodeKey(keys[0])[..|EncodeKey(keys[0])| + 1 - |keys|] + text)
  {
    var bytes := EncodeKey(keys[0]);
    EncodeParts(keys, |keys|, text);
    assert keys[|keys|..] == [] && keys[1..|keys|] == keys[1..];
    NothingAfter(text);
    assert bytes[..|bytes|] == bytes;
    ErasesEat(keys[0], |bytes|, keys[1..], text);
  }

  /** A whole erase is stripped, the beginning of one is not. */
  lemma OnlyWholeErasesGo(erase: Key, j: nat, text: string)
    requires !erase.Plain? && 1 <= j <= |EncodeKey(erase)| && PlainText(text)
    ensures Applied(EncodeKey(erase)[..j] + text) == text <==> j == |EncodeKey(erase)|
  {
    var bytes := EncodeKey(erase);
    var s := bytes[..j] + text;
    assert forall i :: 0 <= i < j ==> s[i] == bytes[i];
    assert forall i :: j <= i < |s| ==> s[i] == text[i - j];
    NoEraseLeft(s);
    if j == |bytes| {
      assert s[j..] == text;
      StripPlain(text);
    } else {
      BeginningStays(s, j, text);
    }
  }

  lemma BeginningStays(s: string, j: nat, text: string)
    requires PlainText(text) && 1 <= j <= 3 && |s| == j + |text| && s[j..] == text
    requires forall i :: 1 <= i < |s| ==> !LineErase(s, i) && !SpaceErase(s, i)
    requires !SpaceErase(s, 0)
    ensures Strip(s) != text
  {
    if LineErase(s, 0) {
      assert s[4..] == text[4 - j..];
      StripPlain(text[4 - j..]);
    } else {
      StripsNothing(s);
    }
  }

  lemma {:induction false} StripsNothing(s: string)
    requires forall i :: 0 <= i < |s| ==> !LineErase(s, i) && !SpaceErase(s, i)
    ensures Strip(s) == s
  {
    if s != [] {
      forall i | 0 <= i < |s[1..]| ensures !LineErase(s[1..], i) && !SpaceErase(s[1..], i) {
        assert !LineErase(s, i + 1) && !SpaceErase(s, i + 1);
      }
      StripsNothing(s[1..]);
    }
  }

  lemma PlainIsFixed(text: string)
    requires PlainText(text)
    ensures Applied(text) == text
  {
    NoEraseLeft(text);
    StripPlain(text);
  }

  /** With no erase sequence after its first character, a string is only stripped. */
  lemma NoEraseLeft(s: string)
    requires forall i :: 1 <= i < |s| ==> !LineErase(s, i) && !SpaceErase(s, i)
    ensures Applied(s) == Strip(s)
  {
    NoHitFrom(s, 0, |s|);
  }

  /** Erases vanish in groups: one, and as many more as it has bytes; after the last group at most one is left. */
  predicate Cleaned(keys: seq<Key>)
    decreases |keys|
  {
    |keys| <= 1 || (|keys| > |EncodeKey(keys[0])| && Cleaned(keys[|EncodeKey(keys[0])| + 1..]))
  }

  /**
   * The final substitution is meant to remove the erases at the start of a line.  For erases of either
   * form, in any order, before plain text it does so exactly when they fall into groups with at most
   * one erase over: in the first pass each erase deletes a byte of the one that leads its group.
   */
  lemma {:induction false} LeadingErasesIff(keys: seq<Key>, text: string)
    requires Erases(keys) && PlainText(text)
    ensures Applied(Encode(keys) + text) == text <==> Cleaned(keys)
    decreases |keys|
  {
    if keys == [] {
      assert Encode(keys) + text == text;
      PlainIsFixed(text);
    } else if |keys| > |EncodeKey(keys[0])| {
      GroupVanishes(keys, text);
      LeadingErasesIff(keys[|EncodeKey(keys[0])| + 1..], text);
    } else {
      GroupLeaves(keys, text);
      OnlyWholeErasesGo(keys[0], |EncodeKey(keys[0])| + 1 - |keys|, text);
    }
  }

  lemma LessFour(n: nat)
    ensures if n < 4 then n % 4 == n else n % 4 == (n - 4) % 4
  {
  }

  lemma LessFive(n: nat)
    ensures if n < 5 then n % 5 == n else n % 5 == (n - 5) % 5
  {
  }

  lemma {:induction false} OneFormCleaned(erase: Key, keys: seq<Key>)
    requires !erase.Plain? && forall i :: 0 <= i < |keys| ==> keys[i] == erase
    ensures Cleaned(keys) <==> |keys| % (if erase.EraseSpace? then 4 else 5) <= 1
    decreases |keys|
  {
    LessFour(|keys|);
    LessFive(|keys|);
    if |keys| > |EncodeKey(erase)| {
      OneFormCleaned(erase, keys[|EncodeKey(erase)| + 1..]);
    }
  }

  /** For erases of one form only the number counts: at most 1 modulo 4 for "BS SP BS", modulo 5 for "BS ESC [ K". */
  lemma LeadingOfOneForm(erase: Key, keys: seq<Key>, text: string)
    requires !erase.Plain? && (forall i :: 0 <= i < |keys| ==> keys[i] == erase) && PlainText(text)
    ensures Applied(Encode(keys) + text) == text <==> |keys| % (if erase.EraseSpace? then 4 else 5) <= 1
  {
    LeadingErasesIff(keys, text);
    OneFormCleaned(erase, keys);
  }

  /** The beginning of a line erase joins up with a typed 'K': two leading ones and "Key" come out as "ey". */
  lemma TypedCharacterIsLost(text: string)
    requires PlainText(text)
    ensures Applied(Encode([EraseLine, EraseLine]) + (['K'] + text)) == text
  {
    var keys, typed := [EraseLine, EraseLine], ['K'] + text;
    GroupLeaves(keys, typed);
    var s := EncodeKey(EraseLine)[..3] + typed;
    assert s == EncodeKey(EraseLine) + text;
    OnlyWholeErasesGo(EraseLine, 4, text);
    assert EncodeKey(EraseLine)[..4] == EncodeKey(EraseLine);
  }

  // ---- the two substitutions, spelled out

  lemma BytesAre()
    ensures EncodeKey(EraseLine) == "\U{0008}\U{001B}[K" && EncodeKey(EraseSpace) == "\U{0008} \U{0008}"
  {
  }

  /** One of the two erase sequences stands at i. */
  predicate EraseAt(s: string, i: nat) {
    || (i + 4 <= |s| && s[i..i + 4] == "\U{0008}\U{001B}[K")
    || (i + 3 <= |s| && s[i..i + 3] == "\U{0008} \U{0008}")
  }

  lemma EraseAtIs(s: string, i: nat)
    ensures LineErase(s, i) <==> i + 4 <= |s| && s[i..i + 4] == "\U{0008}\U{001B}[K"
    ensures SpaceErase(s, i) <==> i + 3 <= |s| && s[i..i + 3] == "\U{0008} \U{0008}"
    ensures EraseAt(s, i) <==> LineErase(s, i) || SpaceErase(s, i)
  {
  }

  lemma StandsAt(a: string, erase: Key, b: string)
    requires !erase.Plain?
    ensures var s := a + EncodeKey(erase) + b;
            && (if erase.EraseLine? then LineErase(s, |a|) else SpaceErase(s, |a|) && !LineErase(s, |a|))
            && s[..|a|] == a && s[|a| + |EncodeKey(erase)|..] == b
  {
    EraseThenRest(erase, b);
    EraseShifts(a, EncodeKey(erase) + b);
    Joined(a, EncodeKey(erase), b);
    assert (a + (EncodeKey(erase) + b))[|a|..] == EncodeKey(erase) + b;
  }

  /** No character but a newline stands before an erase in this part of the string. */
  ghost predicate NoMatchBefore(s: string, k: nat) {
    forall i :: 0 <= i < k && i < |s| && s[i] != '\n' ==> !EraseAt(s, i + 1)
  }

  lemma QuietUpTo(s: string, k: nat)
    requires k <= |s| && NoMatchBefore(s, k)
    ensures FirstHit(s, 0) == FirstHit(s, k)
  {
    forall i | 0 <= i < k ensures HitLength(s, i) == 0 {
      EraseAtIs(s, i + 1);
    }
    NoHitFrom(s, 0, k);
  }

  /** The first substitution takes out the leftmost character that is no newline and has an erase behind it, with that erase. */
  lemma FirstSubstitutionIs(a: string, c: char, erase: Key, b: string)
    requires !erase.Plain? && c != '\n'
    requires NoMatchBefore(a + [c] + EncodeKey(erase) + b, |a|)
    ensures SubOnce(a + [c] + EncodeKey(erase) + b) == a + b
  {
    var s := a + [c] + EncodeKey(erase) + b;
    StandsAt(a + [c], erase, b);
    QuietUpTo(s, |a|);
    assert (a + [c])[|a|] == c && s[..|a| + 1] == a + [c];
    assert s[|a|] == s[..|a| + 1][|a|];
    assert s[..|a|] == s[..|a| + 1][..|a|] == a;
  }

  /** It leaves a string in which no such character is. */
  lemma FirstSubstitutionEnds(s: string)
    requires NoMatchBefore(s, |s|)
    ensures SubOnce(s) == s
  {
    QuietUpTo(s, |s|);
  }

  /** The last substitution takes out every erase, from the left, and nothing else. */
  lemma {:induction false} LastSubstitutionIs(a: string, erase: Key, b: string)
    requires !erase.Plain? && forall i :: 0 <= i < |a| ==> !EraseAt(a + EncodeKey(erase) + b, i)
    ensures Strip(a + EncodeKey(erase) + b) == a + Strip(b)
    decreases |a|
  {
    var s := a + EncodeKey(erase) + b;
    if a == [] {
      EraseIsStripped(erase, b);
    } else {
      var rest := a[1..] + EncodeKey(erase) + b;
      TailOfThree(a, EncodeKey(erase), b);
      forall i | 0 <= i < |a[1..]| ensures !EraseAt(rest, i) {
        ShiftedErase(s, i);
      }
      LastSubstitutionIs(a[1..], erase, b);
      StripGoesOn(s);
      Joined([a[0]], a[1..], Strip(b));
      assert [a[0]] + a[1..] == a;
    }
  }

  lemma EraseIsStripped(erase: Key, b: string)
    requires !erase.Plain?
    ensures Strip([] + EncodeKey(erase) + b) == [] + Strip(b)
  {
    StandsAt([], erase, b);
  }

  lemma TailOfThree(a: string, b: string, c: string)
    requires a != []
    ensures (a + b + c)[0] == a[0] && (a + b + c)[1..] == a[1..] + b + c
  {
  }

  lemma StripGoesOn(s: string)
    requires s != [] && !EraseAt(s, 0)
    ensures Strip(s) == [s[0]] + Strip(s[1..])
  {
    EraseAtIs(s, 0);
  }

  lemma ShiftedErase(s: string, i: nat)
    requires s != []
    ensures EraseAt(s[1..], i) <==> EraseAt(s, i + 1)
  {
    EraseAtIs(s[1..], i);
    EraseAtIs(s, i + 1);
  }

  lemma LastSubstitutionEnds(s: string)
    requires forall i :: 0 <= i < |s| ==> !EraseAt(s, i)
    ensures Strip(s) == s
  {
    forall i | 0 <= i < |s| ensures !LineErase(s, i) && !SpaceErase(s, i) {
      EraseAtIs(s, i);
    }
    StripsNothing(s);
  }

  /** The whole rewriting repeats the first substitution until it changes nothing and then makes the last one. */
  lemma RewritingIs(s: string)
    ensures SubOnce(s) != s ==> Applied(s) == Applied(SubOnce(s))
    ensures SubOnce(s) == s ==> Applied(s) == Strip(s)
  {
    if FirstHit(s, 0).Some? {
      assert |SubOnce(s)| < |s|;
    }
  }
}
