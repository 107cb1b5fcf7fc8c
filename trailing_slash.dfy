/**
 * The `TrailingSlash` middleware: every path has one canonical spelling,
 * with or without a single trailing `/`, and a request for any other
 * spelling is answered with a permanent redirect (301, section 6.4.2 of
 * RFC 7231) to the canonical one.
 */
module TrailingSlashes {
  import opened PhpValues

  /** The character mask of `rtrim($path, "/")`. */
  const Slash: set<char> := {'/'}

  /** The middleware's setting: whether canonical paths end in `/`. */
  datatype Setting = Setting(trailingSlash: bool)

  /** `new TrailingSlash($factory)`: without a second argument, paths carry no trailing `/`. */
  const Default := Setting(false)

  /** The path without its trailing slashes (`rtrim($path, "/")`). */
  function Stem(path: string): string {
    TrimRight(path, Slash)
  }

  /**
   * `normalize($path)`: the trailing slashes are stripped; an empty result
   * becomes `"/"`, any other gets one `/` back exactly when the setting
   * asks for it.
   */
  function Normalize(m: Setting, path: string): (r: string)
    ensures r != ""
    ensures Stem(r) == Stem(path)
    ensures r == "/" <==> Stem(path) == ""
    ensures r != "/" ==> (r[|r| - 1] == '/' <==> m.trailingSlash)
    ensures |r| <= |Stem(r)| + 1
  {
    var stem := Stem(path);
    if stem == "" then "/"
    else if m.trailingSlash then
      assert (stem + "/")[..|stem|] == stem;
      stem + "/"
    else stem
  }

  /** The paths a setting accepts as they are, stated without `normalize`. */
  predicate Canonical(m: Setting, path: string) {
    || path == "/"
    || (!m.trailingSlash && path != "" && path[|path| - 1] != '/')
    || (m.trailingSlash && |path| >= 2 && path[|path| - 1] == '/' && path[|path| - 2] != '/')
  }

  /** A path is left alone by `normalize` exactly when it is canonical. */
  lemma NormalizeFixesCanonical(m: Setting, path: string)
    ensures Normalize(m, path) == path <==> Canonical(m, path)
  {
    var stem := Stem(path);
    if Canonical(m, path) && path != "/" && m.trailingSlash {
      assert stem == path[..|path| - 1];
    }
  }

  /** Normalizing twice is normalizing once. */
  lemma NormalizeIdempotent(m: Setting, path: string)
    ensures Normalize(m, Normalize(m, path)) == Normalize(m, path)
  {
  }

  /** What `process` does with a request: redirect it, or pass it on unchanged. */
  datatype Decision = Redirect(status: int, location: string) | Delegate

  /**
   * `process`: a 301 to the normalized path when the request's path differs
   * from it, and otherwise `$handler->handle($request)`.
   */
  function Process(m: Setting, path: string): (r: Decision)
    ensures r.Delegate? <==> Canonical(m, path)
    ensures r.Redirect? ==> r.status == 301 && r.location == Normalize(m, path)
  {
    NormalizeFixesCanonical(m, path);
    var target := Normalize(m, path);
    if path != target then Redirect(301, target) else Delegate
  }

  /** Following a redirect never leads to another one: the target is served. */
  lemma RedirectIsFinal(m: Setting, path: string)
    requires Process(m, path).Redirect?
    ensures Process(m, Process(m, path).location) == Delegate
  {
    NormalizeIdempotent(m, path);
    NormalizeFixesCanonical(m, Normalize(m, path));
  }

  /** With the default setting, `/foo/` and `/foo//` redirect to `/foo`, and only the root keeps its slash. */
  lemma DefaultStripsSlashes()
    ensures Process(Default, "/foo/") == Redirect(301, "/foo")
    ensures Process(Default, "/foo//") == Redirect(301, "/foo")
    ensures Process(Default, "/foo") == Delegate
    ensures Process(Default, "//") == Redirect(301, "/")
  {
    assert Stem("/foo/") == "/foo";
    assert "/foo//"[..5] == "/foo/";
    assert Stem("/foo//") == "/foo";
    assert Stem("//") == "";
  }

  /** With trailing slashes on, `/foo` redirects to `/foo/`. */
  lemma TrailingSlashAdded()
    ensures Process(Setting(true), "/foo") == Redirect(301, "/foo/")
    ensures Process(Setting(true), "/foo/") == Delegate
  {
    assert Stem("/foo") == "/foo";
  }
}
