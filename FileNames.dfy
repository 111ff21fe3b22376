/** The upload extension check shared by app.py and csv_uploader.py:
    `'.' in name and name.rsplit('.', 1)[1].lower() in allowed`. */
module FileNames {

  import opened Wrappers
  import opened Text

  /** Index of the last occurrence of `c` in `s`, if any (`str.rfind`). */
  function LastIndexOf(s: string, c: char): (r: Option<nat>)
    ensures r.Some? ==> r.value < |s| && s[r.value] == c
    ensures r.Some? ==> forall j :: r.value < j < |s| ==> s[j] != c
    ensures r.None? ==> forall j :: 0 <= j < |s| ==> s[j] != c
    decreases |s|
  {
    if s == [] then None
    else if s[|s| - 1] == c then Some(|s| - 1)
    else LastIndexOf(s[..|s| - 1], c)
  }

  /** `name.rsplit('.', 1)[1]` when the name contains a dot. */
  function Extension(name: string): Option<string> {
    match LastIndexOf(name, '.')
    case None => None
    case Some(i) => Some(name[i + 1..])
  }

  /** The extension is exactly the text after some dot that has no dot after it. */
  lemma ExtensionExact(name: string, e: string)
    ensures Extension(name) == Some(e) <==>
              exists i :: 0 <= i < |name| && name[i] == '.' && name[i + 1..] == e && '.' !in e
  {
    if exists i :: 0 <= i < |name| && name[i] == '.' && name[i + 1..] == e && '.' !in e {
      var i :| 0 <= i < |name| && name[i] == '.' && name[i + 1..] == e && '.' !in e;
      ExtensionAfterDot(name, i, e);
    }
    if Extension(name) == Some(e) {
      var i := DotBeforeExtension(name, e);
    }
  }

  /** The text after a dot that has no dot after it is the extension. */
  lemma ExtensionAfterDot(name: string, i: nat, e: string)
    requires i < |name| && name[i] == '.' && name[i + 1..] == e && '.' !in e
    ensures Extension(name) == Some(e)
  {
    NoDotAfter(name, i, e);
    LastDotAt(name, i);
  }

  /** The extension follows the last dot and holds no dot. */
  lemma DotBeforeExtension(name: string, e: string) returns (i: nat)
    requires Extension(name) == Some(e)
    ensures i < |name| && name[i] == '.' && name[i + 1..] == e && '.' !in e
  {
    i := LastIndexOf(name, '.').value;
    forall k | 0 <= k < |e| ensures e[k] != '.' {
      assert e[k] == name[i + 1 + k];
    }
  }

  /** No dot follows a dot whose tail has none. */
  lemma NoDotAfter(name: string, i: nat, e: string)
    requires i < |name| && name[i + 1..] == e && '.' !in e
    ensures forall j :: i < j < |name| ==> name[j] != '.'
  {
    forall j | i < j < |name| ensures name[j] != '.' {
      assert name[j] == e[j - i - 1];
    }
  }

  /** A dot with no dot after it is the one `rfind` reports. */
  lemma LastDotAt(name: string, i: nat)
    requires i < |name| && name[i] == '.'
    requires forall j :: i < j < |name| ==> name[j] != '.'
    ensures LastIndexOf(name, '.') == Some(i)
  {
    var r := LastIndexOf(name, '.');
    assert r.Some?;
    assert !(r.value < i) && !(i < r.value);
  }

  /** `allowed_file`: the name has a dot and its lower-cased extension is allowed. */
  predicate AllowedFile(name: string, allowed: set<string>) {
    match Extension(name)
    case None => false
    case Some(e) => Lower(e) in allowed
  }

  /** Lower-casing the name does not move its dots. */
  lemma {:induction false} LastIndexOfLower(s: string)
    ensures LastIndexOf(Lower(s), '.') == LastIndexOf(s, '.')
    decreases |s|
  {
    if s != [] {
      assert Lower(s)[..|s| - 1] == Lower(s[..|s| - 1]);
      LastIndexOfLower(s[..|s| - 1]);
    }
  }

  /** The check ignores the case of the whole file name. */
  lemma AllowedFileIgnoresCase(name: string, allowed: set<string>)
    ensures AllowedFile(Lower(name), allowed) == AllowedFile(name, allowed)
  {
    LastIndexOfLower(name);
    var low := Lower(name);
    match LastIndexOf(name, '.')
    case None =>
      assert Extension(low) == None;
    case Some(i) =>
      var e := name[i + 1..];
      assert Extension(low) == Some(low[i + 1..]);
      assert forall k :: 0 <= k < |e| ==> low[i + 1..][k] == Lower(e)[k];
      assert low[i + 1..] == Lower(e);
      LowerIdempotent(e);
  }

  /** A wider set of extensions accepts every name a narrower one accepts. */
  lemma AllowedFileMonotone(name: string, small: set<string>, big: set<string>)
    requires small <= big
    ensures AllowedFile(name, small) ==> AllowedFile(name, big)
  {
  }
}
