/**
 * The Ed25519 operations the signing authority relies on, left uninterpreted:
 * a scheme is any choice of encodings, key derivation and signing function.
 */
module Crypto {
  import opened Wrappers
  import opened PyStr

  /** A signing key, identified by its 32-byte seed. */
  datatype SigningKey = SigningKey(seed: seq<bv8>)

  datatype Scheme = Scheme(
    /** The signing key in URL-safe base64, as text. */
    encodeSigningKey: SigningKey -> string,
    /** The derived verification key in URL-safe base64, as text. */
    encodeVerifyKey: SigningKey -> string,
    /** Decodes URL-safe base64 key text; `None` where the library raises. */
    decodeSigningKey: string -> Option<SigningKey>,
    /** The detached signature of the UTF-8 text, in URL-safe base64. */
    signText: (SigningKey, string) -> string)

  /**
   * What the model takes from the library about one key: its encoding decodes
   * back to it and carries no surrounding whitespace.
   */
  predicate EncodingRoundTrips(s: Scheme, k: SigningKey) {
    s.decodeSigningKey(s.encodeSigningKey(k)) == Some(k)
    && Strip(s.encodeSigningKey(k)) == s.encodeSigningKey(k)
  }
}

/** The signing authority and the pane that generates, opens and saves its key. */
module SigningAuthorities {
  import opened Wrappers
  import opened PyStr
  import opened Crypto
  import opened AppContexts

  /** Key files on disk: path to text. */
  type KeyFiles = map<string, string>

  datatype AuthorityError =
    | KeyFileUnreadable(path: string)   // `open` raises
    | InvalidKeyText                    // the key text does not decode

  /** Stands in for a generated key where the path is known not to be empty, so none is generated. */
  const NoKey: SigningKey := SigningKey([])

  /** A signing authority holds one signing key; everything it exports is a function of that key. */
  datatype SigningAuthority = SigningAuthority(signingKey: SigningKey) {
    function GetSigningKey(s: Scheme): string {
      s.encodeSigningKey(signingKey)
    }

    function GetVerificationKey(s: Scheme): string {
      s.encodeVerifyKey(signingKey)
    }

    function Sign(s: Scheme, data: string): string {
      s.signText(signingKey, data)
    }
  }

  /** Decodes key text into an authority. */
  function FromKeyText(s: Scheme, text: string): (r: Result<SigningAuthority, AuthorityError>)
    ensures r.Ok? <==> s.decodeSigningKey(text).Some?
    ensures r.Ok? ==> r.value.signingKey == s.decodeSigningKey(text).value
    ensures r.Err? ==> r.error == InvalidKeyText
  {
    match s.decodeSigningKey(text)
    case Some(k) => Ok(SigningAuthority(k))
    case None => Err(InvalidKeyText)
  }

  /** Reads a key file, strips surrounding whitespace and decodes it. */
  function FromKeyFile(s: Scheme, path: string, files: KeyFiles): (r: Result<SigningAuthority, AuthorityError>)
    ensures path !in files ==> r == Err(KeyFileUnreadable(path))
    ensures path in files ==> r == FromKeyText(s, Strip(files[path]))
  {
    if path in files then FromKeyText(s, Strip(files[path])) else Err(KeyFileUnreadable(path))
  }

  /**
   * The constructor: an explicit key wins, then non-empty key text, then a
   * non-empty key file path; with none of them a fresh key (`generated`,
   * the library's random key) is used.
   */
  function NewAuthority(s: Scheme, key: Option<SigningKey>, keyText: Option<string>, keyFile: Option<string>,
                        files: KeyFiles, generated: SigningKey): (r: Result<SigningAuthority, AuthorityError>)
    ensures key.Some? ==> r == Ok(SigningAuthority(key.value))
    ensures key.None? && Truthy(keyText) ==> r == FromKeyText(s, keyText.value)
    ensures key.None? && !Truthy(keyText) && Truthy(keyFile) ==> r == FromKeyFile(s, keyFile.value, files)
    ensures key.None? && !Truthy(keyText) && !Truthy(keyFile) ==> r == Ok(SigningAuthority(generated))
  {
    if key.Some? then Ok(SigningAuthority(key.value))
    else if Truthy(keyText) then FromKeyText(s, keyText.value)
    else if Truthy(keyFile) then FromKeyFile(s, keyFile.value, files)
    else Ok(SigningAuthority(generated))
  }

  /** The text a signing authority exports decodes to the same authority. */
  lemma KeyTextRoundTrip(s: Scheme, a: SigningAuthority, generated: SigningKey)
    requires EncodingRoundTrips(s, a.signingKey)
    ensures a.GetSigningKey(s) != "" ==> NewAuthority(s, None, Some(a.GetSigningKey(s)), None, map[], generated) == Ok(a)
  {
  }

  /** A key file written by the pane loads back as the authority that wrote it. */
  lemma SavedKeyFileLoads(s: Scheme, a: SigningAuthority, path: string, files: KeyFiles)
    requires EncodingRoundTrips(s, a.signingKey)
    ensures FromKeyFile(s, path, files[path := a.GetSigningKey(s)]) == Ok(a)
  {
  }

  /** Two authorities with the same key export the same keys and signatures. */
  lemma ExportsDependOnKeyOnly(s: Scheme, a: SigningAuthority, b: SigningAuthority, data: string)
    requires a.signingKey == b.signingKey
    ensures a.GetSigningKey(s) == b.GetSigningKey(s)
    ensures a.GetVerificationKey(s) == b.GetVerificationKey(s)
    ensures a.Sign(s, data) == b.Sign(s, data)
  {
  }

  /** The signing authority tab: the loaded authority and the three key fields it shows. */
  class SigningAuthorityPane {
    const scheme: Scheme
    const ctx: AppContext
    var authority: Option<SigningAuthority>
    var signingKeyField: string
    var verificationKeyField: string
    var currentKeyField: string

    /** The key fields show the loaded authority's exports. */
    predicate Shows()
      reads this
    {
      authority.Some? ==>
        signingKeyField == authority.value.GetSigningKey(scheme)
        && verificationKeyField == authority.value.GetVerificationKey(scheme)
    }

    /** A new pane has no authority and empty fields. */
    constructor(scheme: Scheme, ctx: AppContext)
      ensures this.scheme == scheme && this.ctx == ctx
      ensures authority.None?
      ensures signingKeyField == "" && verificationKeyField == "" && currentKeyField == ""
    {
      this.scheme := scheme;
      this.ctx := ctx;
      authority := None;
      signingKeyField, verificationKeyField, currentKeyField := "", "", "";
    }

    /**
     * `_load_key`: builds the authority from the key file and shows it; when
     * the file cannot be read or decoded the error propagates and nothing
     * changes. An empty path names no file, so the constructor falls through
     * to a fresh key (`generated`).
     */
    method LoadKey(path: string, files: KeyFiles, generated: SigningKey) returns (r: Result<(), AuthorityError>)
      modifies this
      ensures var loaded := NewAuthority(scheme, None, None, Some(path), files, generated);
        && (r.Ok? <==> loaded.Ok?)
        && (r.Ok? ==> authority == Some(loaded.value) && currentKeyField == path && Shows())
        && (r.Err? ==> r.error == loaded.error && unchanged(this))
    {
      var loaded := NewAuthority(scheme, None, None, Some(path), files, generated);
      if loaded.Err? {
        return Err(loaded.error);
      }
      authority := Some(loaded.value);
      signingKeyField := loaded.value.GetSigningKey(scheme);
      verificationKeyField := loaded.value.GetVerificationKey(scheme);
      currentKeyField := path;
      r := Ok(());
    }

    /** `on_mount`: reloads the last key file recorded in the context, if any. */
    method OnMount(files: KeyFiles) returns (r: Result<(), AuthorityError>)
      modifies this
      ensures !Truthy(ctx.Item("last_key")) ==> r.Ok? && unchanged(this)
      ensures Truthy(ctx.Item("last_key")) ==>
        var loaded := FromKeyFile(scheme, ctx.Item("last_key").value, files);
        && (r.Ok? <==> loaded.Ok?)
        && (r.Ok? ==> authority == Some(loaded.value) && currentKeyField == ctx.Item("last_key").value && Shows())
        && (r.Err? ==> unchanged(this))
    {
      var lastKey := ctx.Item("last_key");
      r := Ok(());
      if Truthy(lastKey) {
        r := LoadKey(lastKey.value, files, NoKey);
      }
    }

    /** "Generate Keys": a fresh authority, shown, with no current key file. */
    method Generate(generated: SigningKey)
      modifies this
      ensures authority == Some(SigningAuthority(generated))
      ensures currentKeyField == ""
      ensures Shows()
    {
      var a := NewAuthority(scheme, None, None, None, map[], generated);
      authority := Some(a.value);
      signingKeyField := a.value.GetSigningKey(scheme);
      verificationKeyField := a.value.GetVerificationKey(scheme);
      currentKeyField := "";
    }

    /** "Copy": the verification key put on the clipboard, or `None` (a warning) without an authority. */
    method CopyVerificationKey() returns (copied: Option<string>)
      ensures copied.Some? <==> authority.Some?
      ensures copied.Some? ==> copied.value == authority.value.GetVerificationKey(scheme)
    {
      if authority.Some? {
        copied := Some(authority.value.GetVerificationKey(scheme));
      } else {
        copied := None;
      }
    }

    /**
     * "Open Keys": loads the chosen file (none when the picker is cancelled),
     * then records it as `last_key`; the context is not touched when loading fails.
     */
    method OpenKey(chosen: Option<string>, files: KeyFiles, tmp: string, writeOk: bool) returns (r: Result<(), AuthorityError>, saved: bool)
      requires EndsWith(tmp, TempSuffix) && tmp !in ctx.dir
      modifies this, ctx
      ensures !Truthy(chosen) ==> r.Ok? && !saved && unchanged(this) && unchanged(ctx)
      ensures Truthy(chosen) ==>
        var loaded := FromKeyFile(scheme, chosen.value, files);
        && (r.Ok? <==> loaded.Ok?)
        && (r.Err? ==> unchanged(this) && unchanged(ctx) && !saved)
        && (r.Ok? ==> authority == Some(loaded.value) && currentKeyField == chosen.value && Shows()
                      && ctx.context == old(ctx.context)["last_key" := chosen.value] && saved == writeOk
                      && (saved ==> ctx.dir == old(ctx.dir)[StateFile := JsonObject(ctx.context)] && ctx.Persisted())
                      && (!saved ==> ctx.dir == old(ctx.dir)))
    {
      saved := false;
      r := Ok(());
      if Truthy(chosen) {
        r := LoadKey(chosen.value, files, NoKey);
        if r.Ok? {
          saved := ctx.Set("last_key", chosen.value, tmp, writeOk);
        }
      }
    }

    /**
     * `_save_key`: writes the signing key to the file, records it as
     * `last_key` and shows it as the current key; without an authority it
     * does nothing. If saving the context fails, the key file is already
     * written and the current key field is not updated.
     */
    method SaveKeyTo(path: string, files: KeyFiles, tmp: string, writeOk: bool) returns (files': KeyFiles, saved: bool)
      requires EndsWith(tmp, TempSuffix) && tmp !in ctx.dir
      modifies this`currentKeyField, ctx
      ensures authority.None? ==> files' == files && !saved && unchanged(this) && unchanged(ctx)
      ensures authority.Some? ==>
        && files' == files[path := authority.value.GetSigningKey(scheme)]
        && ctx.context == old(ctx.context)["last_key" := path]
        && saved == writeOk
        && (saved ==> ctx.dir == old(ctx.dir)[StateFile := JsonObject(ctx.context)] && ctx.Persisted()
                      && currentKeyField == path)
        && (!saved ==> ctx.dir == old(ctx.dir) && currentKeyField == old(currentKeyField))
    {
      files' := files;
      saved := false;
      if authority.None? {
        return;
      }
      files' := files[path := authority.value.GetSigningKey(scheme)];
      saved := ctx.Set("last_key", path, tmp, writeOk);
      if saved {
        currentKeyField := path;
      }
    }

    /** "Save Keys": warns (`warned`) without an authority, else saves to the chosen file. */
    method SaveKey(chosen: Option<string>, files: KeyFiles, tmp: string, writeOk: bool) returns (files': KeyFiles, warned: bool, saved: bool)
      requires EndsWith(tmp, TempSuffix) && tmp !in ctx.dir
      modifies this`currentKeyField, ctx
      ensures warned <==> authority.None?
      ensures (warned || !Truthy(chosen)) ==> files' == files && !saved && unchanged(this) && unchanged(ctx)
      ensures !warned && Truthy(chosen) ==>
        && files' == files[chosen.value := authority.value.GetSigningKey(scheme)]
        && ctx.context == old(ctx.context)["last_key" := chosen.value]
        && saved == writeOk
        && (saved ==> ctx.dir == old(ctx.dir)[StateFile := JsonObject(ctx.context)] && ctx.Persisted()
                      && currentKeyField == chosen.value)
        && (!saved ==> ctx.dir == old(ctx.dir) && currentKeyField == old(currentKeyField))
    {
      files' := files;
      saved := false;
      warned := authority.None?;
      if warned {
        return;
      }
      if Truthy(chosen) {
        files', saved := SaveKeyTo(chosen.value, files, tmp, writeOk);
      }
    }
  }

  /** After a successful save, loading the saved file gives back the same authority. */
  lemma SaveThenOpen(s: Scheme, a: SigningAuthority, path: string, files: KeyFiles, generated: SigningKey)
    requires path != "" && EncodingRoundTrips(s, a.signingKey)
    ensures NewAuthority(s, None, None, Some(path), files[path := a.GetSigningKey(s)], generated) == Ok(a)
  {
  }
}
