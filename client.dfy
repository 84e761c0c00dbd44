/**
 * The module-level helpers of the chat client's single-page app: avatar
 * initials, avatar hue, and the error rule of the HTTP wrapper `api`.
 */
module Client {
  import opened Wrappers
  import opened Text

  // ---------------------------------------------------------------------------
  // initialsFor
  // ---------------------------------------------------------------------------

  /** The first index at or after `j` that holds whitespace (`|t|` if there is none): where a word ends. */
  function WordEnd(t: string, j: nat): (e: nat)
    requires j <= |t|
    ensures j <= e <= |t|
    ensures forall k :: j <= k < e ==> !IsSpace(t[k], JsWhitespace)
    ensures e < |t| ==> IsSpace(t[e], JsWhitespace)
    decreases |t| - j
  {
    if j < |t| && !IsSpace(t[j], JsWhitespace) then WordEnd(t, j + 1) else j
  }

  /** Moving down from `j`, the start of the run of non-whitespace characters that ends at `j`. */
  function RunStart(t: string, j: nat): (i: nat)
    requires j <= |t|
    ensures i <= j
    ensures forall k :: i <= k < j ==> !IsSpace(t[k], JsWhitespace)
    ensures i > 0 ==> IsSpace(t[i - 1], JsWhitespace)
  {
    if j > 0 && !IsSpace(t[j - 1], JsWhitespace) then RunStart(t, j - 1) else j
  }

  /** The words of `t[i..]`: its maximal runs of non-whitespace characters, in order. */
  function WordsFrom(t: string, i: nat): (ws: seq<string>)
    requires i <= |t|
    ensures forall n :: 0 <= n < |ws| ==> ws[n] != [] && NoSpace(ws[n], JsWhitespace)
    ensures ws == [] <==> forall k :: i <= k < |t| ==> IsSpace(t[k], JsWhitespace)
    decreases |t| - i
  {
    var j := SkipSpace(t, i, JsWhitespace);
    if j == |t| then []
    else
      var e := WordEnd(t, j);
      [t[j..e]] + WordsFrom(t, e)
  }

  /** `t.split(/\s+/).filter(Boolean)`. */
  function Words(t: string): (ws: seq<string>)
    ensures forall n :: 0 <= n < |ws| ==> ws[n] != [] && NoSpace(ws[n], JsWhitespace)
    ensures ws == [] <==> AllSpace(t, JsWhitespace)
  {
    WordsFrom(t, 0)
  }

  /** Only whitespace lies in `t[lo..hi]`. */
  predicate SpaceBetween(t: string, lo: nat, hi: nat) {
    forall k :: lo <= k < hi && k < |t| ==> IsSpace(t[k], JsWhitespace)
  }

  /**
   * `w` is the run of `t` at `start`: it is `t[start..start + |w|]`, and it is
   * maximal, with whitespace (or the scan's start `lo`) before it and
   * whitespace (or the end of `t`) after it.
   */
  predicate RunAt(t: string, w: string, start: nat, lo: nat) {
    && start + |w| <= |t| && w == t[start..start + |w|]
    && (start > lo ==> IsSpace(t[start - 1], JsWhitespace))
    && (start + |w| < |t| ==> IsSpace(t[start + |w|], JsWhitespace))
  }

  /** Word `n` of `ws` is the run at `starts[n]`, at or after `lo`. */
  predicate RunsPlaced(t: string, lo: nat, ws: seq<string>, starts: seq<nat>) {
    && |starts| == |ws|
    && forall n :: 0 <= n < |ws| ==> lo <= starts[n] && RunAt(t, ws[n], starts[n], lo)
  }

  /** Consecutive runs are apart, with only whitespace between them. */
  predicate RunsApart(t: string, ws: seq<string>, starts: seq<nat>)
    requires |starts| == |ws|
  {
    forall n :: 0 <= n < |ws| - 1 ==>
      starts[n] + |ws[n]| < starts[n + 1] && SpaceBetween(t, starts[n] + |ws[n]|, starts[n + 1])
  }

  /** Only whitespace lies before the first run and after the last. */
  predicate RunsFramed(t: string, lo: nat, ws: seq<string>, starts: seq<nat>)
    requires |starts| == |ws|
  {
    && SpaceBetween(t, lo, if ws == [] then |t| else starts[0])
    && (ws != [] ==> SpaceBetween(t, starts[|ws| - 1] + |ws[|ws| - 1]|, |t|))
  }

  /** `ws` are the maximal runs of non-whitespace of `t[lo..]`, in order, starting at `starts`. */
  predicate Runs(t: string, lo: nat, ws: seq<string>, starts: seq<nat>) {
    RunsPlaced(t, lo, ws, starts) && RunsApart(t, ws, starts) && RunsFramed(t, lo, ws, starts)
  }

  /** The conditions under which the run `t[j..e]` goes in front of the runs `rest` of `t[e..]`. */
  predicate ConsOk(t: string, i: nat, j: nat, e: nat, rest: seq<string>, later: seq<nat>) {
    && i <= j < e <= |t|
    && SpaceBetween(t, i, j)
    && (forall k :: j <= k < e ==> !IsSpace(t[k], JsWhitespace))
    && (e < |t| ==> IsSpace(t[e], JsWhitespace))
    && (forall n :: 0 <= n < |rest| ==> rest[n] != [] && NoSpace(rest[n], JsWhitespace))
    && Runs(t, e, rest, later)
  }

  /** The first run of `t[e..]` starts strictly after `e`, where the previous word ended. */
  lemma ConsFirstLater(t: string, i: nat, j: nat, e: nat, rest: seq<string>, later: seq<nat>)
    requires ConsOk(t, i, j, e, rest, later)
    ensures rest != [] ==> e < later[0]
  {
    if rest != [] {
      assert RunAt(t, rest[0], later[0], e);
      assert rest[0][0] == t[later[0]];
    }
  }

  lemma ConsPlaced(t: string, i: nat, j: nat, e: nat, rest: seq<string>, later: seq<nat>)
    requires ConsOk(t, i, j, e, rest, later)
    ensures RunsPlaced(t, i, [t[j..e]] + rest, [j] + later)
  {
    ConsFirstLater(t, i, j, e, rest, later);
    var ws := [t[j..e]] + rest;
    var starts := [j] + later;
    forall n | 0 <= n < |ws|
      ensures i <= starts[n] && RunAt(t, ws[n], starts[n], i)
    {
      if n > 0 {
        assert ws[n] == rest[n - 1] && starts[n] == later[n - 1];
        assert RunAt(t, rest[n - 1], later[n - 1], e);
        if n > 1 {
          assert later[0] < later[n - 1] by {
            RunsAscend(t, rest, later, 0, n - 1);
          }
        }
      }
    }
  }

  /** In runs that are apart, later runs start later. */
  lemma {:induction false} RunsAscend(t: string, ws: seq<string>, starts: seq<nat>, m: nat, n: nat)
    requires |starts| == |ws| && RunsApart(t, ws, starts) && m < n < |ws|
    ensures starts[m] < starts[n]
    decreases n - m
  {
    if m + 1 < n {
      RunsAscend(t, ws, starts, m + 1, n);
    }
  }

  lemma ConsApart(t: string, i: nat, j: nat, e: nat, rest: seq<string>, later: seq<nat>)
    requires ConsOk(t, i, j, e, rest, later)
    ensures RunsApart(t, [t[j..e]] + rest, [j] + later)
  {
    ConsFirstLater(t, i, j, e, rest, later);
    var ws := [t[j..e]] + rest;
    var starts := [j] + later;
    forall n | 0 <= n < |ws| - 1
      ensures starts[n] + |ws[n]| < starts[n + 1] && SpaceBetween(t, starts[n] + |ws[n]|, starts[n + 1])
    {
      if n > 0 {
        assert ws[n] == rest[n - 1] && starts[n] == later[n - 1];
        assert ws[n + 1] == rest[n] && starts[n + 1] == later[n];
      }
    }
  }

  lemma ConsFramed(t: string, i: nat, j: nat, e: nat, rest: seq<string>, later: seq<nat>)
    requires ConsOk(t, i, j, e, rest, later)
    ensures RunsFramed(t, i, [t[j..e]] + rest, [j] + later)
  {
    var ws := [t[j..e]] + rest;
    var starts := [j] + later;
    if rest != [] {
      assert ws[|ws| - 1] == rest[|rest| - 1] && starts[|ws| - 1] == later[|rest| - 1];
    }
  }

  /** The words of `t[i..]` are its maximal runs of non-whitespace, in order, as `Runs` says. */
  lemma {:induction false} WordsFromAreRuns(t: string, i: nat) returns (starts: seq<nat>)
    requires i <= |t|
    ensures Runs(t, i, WordsFrom(t, i), starts)
    decreases |t| - i
  {
    var j := SkipSpace(t, i, JsWhitespace);
    if j == |t| {
      starts := [];
    } else {
      var e := WordEnd(t, j);
      assert WordsFrom(t, i) == [t[j..e]] + WordsFrom(t, e);
      var later := WordsFromAreRuns(t, e);
      var rest := WordsFrom(t, e);
      assert ConsOk(t, i, j, e, rest, later);
      ConsPlaced(t, i, j, e, rest, later);
      ConsApart(t, i, j, e, rest, later);
      ConsFramed(t, i, j, e, rest, later);
      starts := [j] + later;
    }
  }

  /**
   * The words `initialsFor` splits a name into are exactly its maximal runs of
   * non-whitespace, in order, with only whitespace around and between them.
   */
  lemma WordsAreRuns(t: string) returns (starts: seq<nat>)
    ensures Runs(t, 0, Words(t), starts)
  {
    starts := WordsFromAreRuns(t, 0);
  }

  /** `RunStart` is characterised by its two conditions. */
  lemma {:induction false} RunStartUnique(t: string, m: nat, j: nat)
    requires m <= j <= |t|
    requires forall k :: m <= k < j ==> !IsSpace(t[k], JsWhitespace)
    requires m > 0 ==> IsSpace(t[m - 1], JsWhitespace)
    ensures RunStart(t, j) == m
    decreases j
  {
    if m < j {
      RunStartUnique(t, m, j - 1);
    }
  }

  /**
   * For a string that ends in a non-whitespace character, the last word of
   * `t[i..]` starts where the final run starts (`i` is 0 or a whitespace position).
   */
  lemma {:induction false} LastWordFrom(t: string, i: nat)
    requires i < |t| && !IsSpace(t[|t| - 1], JsWhitespace)
    requires i == 0 || IsSpace(t[i], JsWhitespace)
    ensures WordsFrom(t, i) != []
    ensures WordsFrom(t, i)[|WordsFrom(t, i)| - 1] == t[RunStart(t, |t|)..]
    decreases |t| - i
  {
    var j := SkipSpace(t, i, JsWhitespace);
    var e := WordEnd(t, j);
    assert WordsFrom(t, i) == [t[j..e]] + WordsFrom(t, e);
    if e == |t| {
      assert WordsFrom(t, e) == [];
      RunStartUnique(t, j, |t|);
    } else {
      LastWordFrom(t, e);
    }
  }

  /** The words of a non-empty string without whitespace: the string itself. */
  lemma WordsOfOneWord(t: string)
    requires t != [] && NoSpace(t, JsWhitespace)
    ensures Words(t) == [t]
  {
    assert SkipSpace(t, 0, JsWhitespace) == 0;
    assert WordEnd(t, 0) == |t|;
    assert t[0..|t|] == t;
  }

  /**
   * A trimmed string with whitespace inside has at least two words; the
   * first starts at its first character, the last at the start of its final run.
   */
  lemma SeveralWords(t: string)
    requires t != [] && !IsSpace(t[0], JsWhitespace) && !IsSpace(t[|t| - 1], JsWhitespace)
    requires !NoSpace(t, JsWhitespace)
    ensures |Words(t)| >= 2 && Words(t)[0][0] == t[0]
    ensures Words(t)[|Words(t)| - 1] == t[RunStart(t, |t|)..]
  {
    assert SkipSpace(t, 0, JsWhitespace) == 0;
    var e := WordEnd(t, 0);
    assert e < |t|;
    LastWordFrom(t, e);
    LastWordFrom(t, 0);
    assert Words(t) == [t[0..e]] + WordsFrom(t, e);
  }

  /** The displayed name: a missing (`null`/`undefined`) name reads as the empty string. */
  function NameText(name: Option<string>): string {
    Trim(name.GetOr(""), JsWhitespace)
  }

  /**
   * `initialsFor(name)`: "?" for a missing or blank name; otherwise the
   * upper-cased initials of the first and last word, or the first two
   * characters of a single word.
   */
  function InitialsFor(name: Option<string>): (r: string)
    ensures NameText(name) == [] ==> r == "?"
    ensures var t := NameText(name);
      t != [] ==> 1 <= |r| <= 2 && r[0] == UpperChar(t[0])
    ensures var t := NameText(name);
      t != [] && NoSpace(t, JsWhitespace) ==> r == Upper(t[..if |t| < 2 then |t| else 2])
    ensures var t := NameText(name);
      t != [] && !NoSpace(t, JsWhitespace) ==> r == [UpperChar(t[0]), UpperChar(t[RunStart(t, |t|)])]
  {
    var s := NameText(name);
    if s == [] then "?"
    else
      var parts := Words(s);
      var first := parts[0];
      var last := parts[|parts| - 1];
      var a := [first[0]];
      var b := if |parts| > 1 then [last[0]] else if |first| > 1 then [first[1]] else [];
      var r := Upper(a + b);
      assert NoSpace(s, JsWhitespace) ==> r == Upper(s[..if |s| < 2 then |s| else 2]) && r[0] == UpperChar(s[0]) by {
        if NoSpace(s, JsWhitespace) {
          WordsOfOneWord(s);
        }
      }
      assert !NoSpace(s, JsWhitespace) ==> r == [UpperChar(s[0]), UpperChar(s[RunStart(s, |s|)])] by {
        if !NoSpace(s, JsWhitespace) {
          SeveralWords(s);
        }
      }
      r
  }

  // ---------------------------------------------------------------------------
  // hashColor
  // ---------------------------------------------------------------------------

  /** The string whose characters are hashed: the lower-cased name, "user" for a missing or empty one. */
  function HueKey(name: Option<string>): string {
    Lower(if name.None? || name.value == [] then "user" else name.value)
  }

  /** The UTF-16 code units of a character: itself below U+10000, otherwise its surrogate pair. */
  function CodeUnits(c: char): (u: seq<nat>)
    ensures |u| == (if c as int < 0x1_0000 then 1 else 2)
    ensures forall k :: 0 <= k < |u| ==> u[k] < 0x1_0000
    ensures c as int < 0x1_0000 ==> u == [c as int]
    ensures c as int >= 0x1_0000 ==>
      && 0xD800 <= u[0] < 0xDC00 <= u[1] < 0xE000
      && 0x1_0000 + (u[0] - 0xD800) * 0x400 + (u[1] - 0xDC00) == c as int
  {
    var n := c as int;
    if n < 0x1_0000 then [n] else [0xD800 + (n - 0x1_0000) / 0x400, 0xDC00 + (n - 0x1_0000) % 0x400]
  }

  /** A JavaScript string's code units, which `length` counts and `charCodeAt` reads. */
  function Utf16(s: string): (u: seq<nat>)
    ensures |u| >= |s|
  {
    if s == [] then [] else Utf16(s[..|s| - 1]) + CodeUnits(s[|s| - 1])
  }

  /** The polynomial hash `u[0]*31^(n-1) + ... + u[n-1]`, in Horner form, without any reduction. */
  function Horner(u: seq<nat>): nat {
    if u == [] then 0 else Horner(u[..|u| - 1]) * 31 + u[|u| - 1]
  }

  /** The avatar hue of a name: the hash of its key's UTF-16 code units, modulo 360. */
  function Hue(name: Option<string>): (h: nat)
    ensures h < 360
  {
    Horner(Utf16(HueKey(name))) % 360
  }

  /** The CSS colour `hsl(<hue> 70% 45%)`. */
  function Hsl(hue: nat): string {
    "hsl(" + NatToDecimal(hue) + " 70% 45%)"
  }

  /** Reducing after every step (as the loop in `hashColor` does) gives the remainder of the whole hash. */
  lemma ReduceEachStep(a: nat, c: nat)
    ensures (a % 360 * 31 + c) % 360 == (a * 31 + c) % 360
  {
    var q := a / 360;
    assert a == 360 * q + a % 360;
    assert a * 31 + c == 360 * (31 * q) + (a % 360 * 31 + c);
  }

  /** `hashColor(name)`: the loop folds `h = (h * 31 + code) % 360` over the key's UTF-16 code units. */
  method HashColor(name: Option<string>) returns (color: string)
    ensures color == Hsl(Hue(name)) && Hue(name) < 360
  {
    var s := Utf16(HueKey(name));
    var h: nat := 0;
    for i := 0 to |s|
      invariant h == Horner(s[..i]) % 360
    {
      assert s[..i + 1][..i] == s[..i];
      ReduceEachStep(Horner(s[..i]), s[i]);
      h := (h * 31 + s[i]) % 360;
    }
    assert s[..|s|] == s;
    color := Hsl(h);
  }

  /** Names that differ only in the case of ASCII letters get the same hue. */
  lemma HueIgnoresCase(a: string, b: string)
    requires Lower(a) == Lower(b)
    ensures Hue(Some(a)) == Hue(Some(b))
  {
  }

  /** U+1F600 is the surrogate pair D83D DE00. */
  lemma AstralCodeUnits()
    ensures Utf16("\U{1F600}") == [0xD83D, 0xDE00]
  {
    var n := '\U{1F600}' as int;
    assert n - 0x1_0000 == 0xF600;
    assert 0xF600 / 0x400 == 0x3D && 0xF600 % 0x400 == 0x200;
    assert CodeUnits('\U{1F600}') == [0xD83D, 0xDE00];
    assert "\U{1F600}"[..0] == [];
  }

  /** A character outside the BMP is hashed as its two surrogates: the hue of U+1F600 is 259. */
  lemma AstralNameHashesSurrogates()
    ensures Hue(Some("\U{1F600}")) == 259
  {
    assert Lower("\U{1F600}") == "\U{1F600}";
    AstralCodeUnits();
    var u: seq<nat> := [0xD83D, 0xDE00];
    assert u[..1] == [0xD83D] && u[..1][..0] == [];
    assert Horner(u[..1]) == 0xD83D;
    assert Horner(u) == 0xD83D * 31 + 0xDE00 == 1772899;
    assert 1772899 % 360 == 259;
  }

  /** A missing name and an empty name both get the hue of "user". */
  lemma HueOfMissingName()
    ensures Hue(None) == Hue(Some("")) == Hue(Some("user"))
  {
    assert Lower("user") == "user";
  }

  // ---------------------------------------------------------------------------
  // api
  // ---------------------------------------------------------------------------

  /**
   * What `fetch` and `safeJson` produced for one request: a response with its
   * status, its parsed body and the body's `detail` field (when it is a
   * truthy string), or a rejected `fetch` with the engine's error message.
   */
  datatype Reply<T> = Responded(status: nat, body: T, detail: Option<string>) | Unreachable(message: string)

  /** `res.ok`. */
  predicate Is2xx(status: nat) {
    200 <= status < 300
  }

  const FallbackPrefix := "Request failed ("

  /** The message of a failed response that carries no usable `detail`. */
  function FallbackMessage(status: nat): (m: string)
    ensures |m| > |FallbackPrefix| + 1
  {
    FallbackPrefix + NatToDecimal(status) + ")"
  }

  /**
   * `api(...)`: the parsed body on a 2xx response; otherwise an error whose
   * message is the body's `detail` when that is a non-empty string, else
   * "Request failed (<status>)".
   */
  function Api<T>(reply: Reply<T>): (r: Result<T, string>)
    ensures reply.Responded? && Is2xx(reply.status) ==> r == Ok(reply.body)
    ensures reply.Responded? && !Is2xx(reply.status) ==> r.Err? && r.error != []
    ensures reply.Responded? && !Is2xx(reply.status) && reply.detail.Some? && reply.detail.value != [] ==>
      r.error == reply.detail.value
    ensures reply.Responded? && !Is2xx(reply.status) && (reply.detail.None? || reply.detail.value == []) ==>
      r.error == FallbackMessage(reply.status)
    ensures reply.Unreachable? ==> r == Err(reply.message)
  {
    match reply
    case Unreachable(message) => Err(message)
    case Responded(status, body, detail) =>
      if Is2xx(status) then Ok(body)
      else if detail.Some? && detail.value != [] then Err(detail.value)
      else Err(FallbackMessage(status))
  }

  /** The status can be read back from the fallback message. */
  lemma FallbackNamesStatus(status: nat)
    ensures var m := FallbackMessage(status);
      m[..|FallbackPrefix|] == FallbackPrefix && m[|m| - 1] == ')' &&
      AllDigits(m[|FallbackPrefix|..|m| - 1]) && DecimalValue(m[|FallbackPrefix|..|m| - 1]) == status
  {
    var m := FallbackMessage(status);
    assert m[|FallbackPrefix|..|m| - 1] == NatToDecimal(status);
    DecimalRoundTrip(status);
  }
}
