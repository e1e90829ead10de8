/** `str_to_cyan` and `str_to_magenta`: a text between a colour code and the reset code.
    The codes come from the terminal-styling library; their bytes are left open as the
    fields of a `Palette`, so every property here holds whatever those bytes are. */
module Colouring {

  datatype Option<T> = None | Some(value: T)

  /** `Fore.CYAN`, `Fore.MAGENTA` and `Style.RESET_ALL`. */
  datatype Palette = Palette(cyan: string, magenta: string, reset: string)

  /** `text` with `prefix` in front and `suffix` behind it. */
  function Wrap(prefix: string, text: string, suffix: string): (r: string)
    ensures |r| == |prefix| + |text| + |suffix|
    ensures r[..|prefix|] == prefix
    ensures r[|prefix|..|r| - |suffix|] == text
    ensures r[|r| - |suffix|..] == suffix
  {
    prefix + text + suffix
  }

  /** The inverse of `Wrap`: the text between `prefix` and `suffix`, when `s` is a
      wrapped text at all. */
  function Unwrap(prefix: string, s: string, suffix: string): (r: Option<string>)
    ensures r.Some? <==> exists t :: Wrap(prefix, t, suffix) == s
    ensures r.Some? ==> Wrap(prefix, r.value, suffix) == s
  {
    if |prefix| + |suffix| <= |s| && s[..|prefix|] == prefix && s[|s| - |suffix|..] == suffix
    then
      var t := s[|prefix|..|s| - |suffix|];
      assert s == prefix + t + suffix by {
        assert s == s[..|prefix|] + s[|prefix|..|s| - |suffix|] + s[|s| - |suffix|..];
      }
      assert Wrap(prefix, t, suffix) == s;
      Some(t)
    else
      None
  }

  /** Wrapping loses nothing: unwrapping with the same prefix and suffix gives the text back. */
  lemma UnwrapWrap(prefix: string, t: string, suffix: string)
    ensures Unwrap(prefix, Wrap(prefix, t, suffix), suffix) == Some(t)
  {
  }

  /** `str_to_cyan(text)`. */
  function Cyan(p: Palette, text: string): (r: string)
    ensures |r| == |p.cyan| + |text| + |p.reset|
    ensures Unwrap(p.cyan, r, p.reset) == Some(text)
  {
    UnwrapWrap(p.cyan, text, p.reset);
    Wrap(p.cyan, text, p.reset)
  }

  /** `str_to_magenta(text)`. */
  function Magenta(p: Palette, text: string): (r: string)
    ensures |r| == |p.magenta| + |text| + |p.reset|
    ensures Unwrap(p.magenta, r, p.reset) == Some(text)
  {
    UnwrapWrap(p.magenta, text, p.reset);
    Wrap(p.magenta, text, p.reset)
  }

  /** Distinct texts stay distinct once coloured. */
  lemma ColourInjective(p: Palette, a: string, b: string)
    ensures Cyan(p, a) == Cyan(p, b) ==> a == b
    ensures Magenta(p, a) == Magenta(p, b) ==> a == b
  {
  }
}
