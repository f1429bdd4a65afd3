/**
 * The request filter's list of scanner and credential-probe path patterns.
 *
 * Each regular expression of the list is written as a `Pattern` of a small
 * finite pattern language: an anchor (at the start of the path, or anywhere
 * in it), a sequence of pieces, each a list of literal alternatives (an empty
 * alternative makes the piece optional, as `?` does), and a tail condition
 * (nothing, end of path, or '/' or end of path). Every expression of the list
 * carries the `i` flag and no `u` flag, and its literal text is ASCII, so a
 * path character matches a literal character exactly when the two agree
 * after ASCII lower-casing.
 */
module ScannerPatterns {
  import opened JsString

  datatype Anchor = AtStart | Anywhere

  datatype Tail =
    | Open          // the pattern may be followed by anything
    | AtEnd         // `$`: the pattern must end the path
    | SlashOrEnd    // `(\/|$)`: the pattern must be followed by '/' or end the path

  /** One group of alternatives: `(a|b|c)`, or `(a|b)?` with "" among them. */
  type Piece = seq<string>

  datatype Pattern = Pattern(anchor: Anchor, pieces: seq<Piece>, tail: Tail)

  function Lit(s: string): Piece { [s] }

  // ---------------------------------------------------------------------------
  // Matching
  // ---------------------------------------------------------------------------

  /** `p` begins with the literal `t`, ignoring ASCII case. */
  predicate StartsWithLit(p: string, t: string)
    ensures StartsWithLit(p, t) ==> |t| <= |p|
  {
    |t| == 0 || (|p| > 0 && SameIgnoringCase(p[0], t[0]) && StartsWithLit(p[1..], t[1..]))
  }

  /** The tail condition, read on what follows the matched text. */
  predicate TailHolds(rest: string, tail: Tail)
  {
    match tail
    case Open => true
    case AtEnd => rest == []
    case SlashOrEnd => rest == [] || rest[0] == '/'
  }

  /** The pieces match a prefix of `p`, and the tail condition holds of what follows. */
  predicate MatchPrefix(p: string, pieces: seq<Piece>, tail: Tail)
    decreases |pieces|, 0
  {
    if pieces == [] then TailHolds(p, tail)
    else MatchAlternatives(p, pieces[0], pieces[1..], tail)
  }

  /** Some alternative of `alts` begins `p` and the remaining pieces match after it. */
  predicate MatchAlternatives(p: string, alts: Piece, rest: seq<Piece>, tail: Tail)
    decreases |rest|, |alts| + 1
  {
    alts != [] &&
    ((StartsWithLit(p, alts[0]) && MatchPrefix(p[|alts[0]|..], rest, tail))
     || MatchAlternatives(p, alts[1..], rest, tail))
  }

  /** An unanchored match: the pieces match at the start of some suffix of `p`. */
  predicate MatchSomewhere(p: string, pieces: seq<Piece>, tail: Tail)
  {
    MatchPrefix(p, pieces, tail) || (|p| > 0 && MatchSomewhere(p[1..], pieces, tail))
  }

  /** `pattern.test(p)` */
  predicate PatternMatches(pat: Pattern, p: string)
  {
    match pat.anchor
    case AtStart => MatchPrefix(p, pat.pieces, pat.tail)
    case Anywhere => MatchSomewhere(p, pat.pieces, pat.tail)
  }

  // ---------------------------------------------------------------------------
  // The pattern list, in source order
  // ---------------------------------------------------------------------------

  const EnvAtRoot := Pattern(AtStart, [Lit("/.env")], Open)
  const EnvInDirectory := Pattern(Anywhere, [Lit("/.env")], Open)
  const EnvVariant := Pattern(Anywhere, [Lit(".env.")], Open)
  const EnvSuffix := Pattern(Anywhere, [Lit(".env")], AtEnd)
  const GitFiles := Pattern(Anywhere, [Lit("."), ["git", "gitignore", "gitconfig", "git-credentials"]], AtEnd)
  const AccessFiles := Pattern(Anywhere, [Lit("."), ["htaccess", "htpasswd", "boto"]], AtEnd)
  const KeyFiles := Pattern(Anywhere, [Lit("."), ["key", "pem", "crt", "secret", "credentials"]], AtEnd)
  const BackupFiles := Pattern(Anywhere, [Lit("."), ["sql", "bak", "backup", "old", "save", "swp", "dist", "template"]], AtEnd)
  const ConfigBackups := Pattern(Anywhere, [Lit("."), ["json", "yml", "yaml", "ini", "conf", "config"], Lit("."), ["bak", "old", "backup", "save"]], AtEnd)
  const SensitiveRootDirectories := Pattern(AtStart, [SensitiveDirectories], SlashOrEnd)
  const SensitiveDirectories: Piece := ["/config", "/storage", "/backup", "/tmp", "/temp", "/var"]
  const WordPressConfig := Pattern(Anywhere, [Lit("/wp-config")], Open)
  const ConfigFiles := Pattern(Anywhere, [Lit("/config."), ["php", "inc", "yml", "yaml", "json"]], AtEnd)
  const DatabaseFiles := Pattern(Anywhere, [Lit("/database."), ["php", "yml", "yaml", "sql"]], AtEnd)
  const CloudDotFiles := Pattern(Anywhere, [Lit("/."), ["terraform", "aws", "s3cfg", "vault-token", "sentryclirc"]], Open)
  const AwsCredentials := Pattern(Anywhere, [Lit("/aws"), ["", "_", "-"], ["key", "secret", "config", "credentials"]], Open)
  const StripeCredentials := Pattern(Anywhere, [Lit("/stripe"), ["", "_", "-"], ["key", "secret", "config"]], Open)
  const CredentialFiles := Pattern(Anywhere, [Lit("/credential"), ["", "s"], ["", ".json", ".yml", ".txt"]], AtEnd)
  const SecretFiles := Pattern(Anywhere, [Lit("/secret"), ["", "s"], ["", ".json", ".yml", ".txt"]], AtEnd)
  const ToolDotFiles := Pattern(Anywhere, [Lit("/."), ["svn", "vscode", "idea", "project", "classpath", "DS_Store"]], Open)
  const AdminScripts := Pattern(Anywhere, [Lit("/admin"), ["", "er"], Lit(".php")], AtEnd)
  const DebugFiles := Pattern(Anywhere, [Lit("/debug."), ["php", "log"]], AtEnd)
  const ErrorLogs := Pattern(Anywhere, [Lit("/error"), ["", "_log"]], AtEnd)
  const ArtisanScript := Pattern(Anywhere, [Lit("/artisan")], AtEnd)
  const ComposerLock := Pattern(Anywhere, [Lit("/composer.lock")], AtEnd)
  const PackageManifests := Pattern(Anywhere, [Lit("/package"), ["", "-lock"], Lit(".json")], AtEnd)
  const Pipfiles := Pattern(Anywhere, [Lit("/Pipfile"), ["", ".lock"]], AtEnd)
  const GemfileLock := Pattern(Anywhere, [Lit("/Gemfile.lock")], AtEnd)
  const TerraformState := Pattern(Anywhere, [Lit("/terraform."), ["tfstate", "tfvars"]], AtEnd)
  const DockerCompose := Pattern(Anywhere, [Lit("/docker-compose")], Open)
  const PackageManagerRc := Pattern(Anywhere, [Lit("/."), ["npmrc", "yarnrc"]], AtEnd)

  /**
   * `SCANNER_PATH_PATTERNS`, in source order, assembled from consecutive
   * runs of the list grouped by theme.
   */
  const ScannerPathPatterns: seq<Pattern> :=
    EnvPatterns + FilePatterns + DirectoryPatterns + ConfigPatterns + ServiceKeyPatterns
    + CredentialPatterns + ToolPatterns + LogPatterns + ManifestPatterns + InfraPatterns

  const EnvPatterns: seq<Pattern> := [EnvAtRoot, EnvInDirectory, EnvVariant, EnvSuffix]
  const FilePatterns: seq<Pattern> := [GitFiles, AccessFiles, KeyFiles, BackupFiles, ConfigBackups]
  const DirectoryPatterns: seq<Pattern> := [SensitiveRootDirectories]
  const ConfigPatterns: seq<Pattern> := [WordPressConfig, ConfigFiles, DatabaseFiles, CloudDotFiles]
  const ServiceKeyPatterns: seq<Pattern> := [AwsCredentials, StripeCredentials]
  const CredentialPatterns: seq<Pattern> := [CredentialFiles, SecretFiles]
  const ToolPatterns: seq<Pattern> := [ToolDotFiles, AdminScripts, DebugFiles]
  const LogPatterns: seq<Pattern> := [ErrorLogs, ArtisanScript, ComposerLock]
  const ManifestPatterns: seq<Pattern> := [PackageManifests, Pipfiles, GemfileLock]
  const InfraPatterns: seq<Pattern> := [TerraformState, DockerCompose, PackageManagerRc]

  /** `pats.some(pattern => pattern.test(p))` */
  predicate AnyPatternMatches(pats: seq<Pattern>, p: string)
  {
    pats != [] && (PatternMatches(pats[0], p) || AnyPatternMatches(pats[1..], p))
  }

  predicate IsScannerPath(p: string)
  {
    AnyPatternMatches(ScannerPathPatterns, p)
  }

  // ---------------------------------------------------------------------------
  // What a match means
  // ---------------------------------------------------------------------------

  /** An unanchored match is an anchored match at the start of some suffix. */
  lemma {:induction false} MatchSomewhereIff(p: string, pieces: seq<Piece>, tail: Tail)
    ensures MatchSomewhere(p, pieces, tail) <==> exists k :: 0 <= k <= |p| && MatchPrefix(p[k..], pieces, tail)
  {
    assert p[0..] == p;
    if |p| > 0 {
      MatchSomewhereIff(p[1..], pieces, tail);
      if MatchSomewhere(p[1..], pieces, tail) {
        var k :| 0 <= k <= |p[1..]| && MatchPrefix(p[1..][k..], pieces, tail);
        assert p[1..][k..] == p[k + 1..];
      }
      if exists k :: 0 <= k <= |p| && MatchPrefix(p[k..], pieces, tail) {
        var k :| 0 <= k <= |p| && MatchPrefix(p[k..], pieces, tail);
        if k > 0 {
          assert p[1..][k - 1..] == p[k..];
        }
      }
    }
  }

  /** A group of alternatives matches when one of its alternatives begins `p` and the remaining pieces match after it. */
  lemma {:induction false} MatchAlternativesIff(p: string, alts: Piece, rest: seq<Piece>, tail: Tail)
    ensures MatchAlternatives(p, alts, rest, tail) <==>
            exists i :: 0 <= i < |alts| && StartsWithLit(p, alts[i]) && MatchPrefix(p[|alts[i]|..], rest, tail)
    decreases |alts|
  {
    if alts != [] {
      MatchAlternativesIff(p, alts[1..], rest, tail);
      if MatchAlternatives(p, alts[1..], rest, tail) {
        var i :| 0 <= i < |alts[1..]| && StartsWithLit(p, alts[1..][i]) && MatchPrefix(p[|alts[1..][i]|..], rest, tail);
        assert alts[i + 1] == alts[1..][i];
      }
      if exists i :: 0 <= i < |alts| && StartsWithLit(p, alts[i]) && MatchPrefix(p[|alts[i]|..], rest, tail) {
        var i :| 0 <= i < |alts| && StartsWithLit(p, alts[i]) && MatchPrefix(p[|alts[i]|..], rest, tail);
        if i > 0 {
          assert alts[1..][i - 1] == alts[i];
        }
      }
    }
  }

  /** The pattern list is a disjunction: a path is a scanner path exactly when one of the patterns matches it. */
  lemma {:induction false} AnyPatternMatchesIff(pats: seq<Pattern>, p: string)
    ensures AnyPatternMatches(pats, p) <==> exists k :: 0 <= k < |pats| && PatternMatches(pats[k], p)
  {
    if pats != [] {
      AnyPatternMatchesIff(pats[1..], p);
      if AnyPatternMatches(pats[1..], p) {
        var k :| 0 <= k < |pats[1..]| && PatternMatches(pats[1..][k], p);
        assert pats[k + 1] == pats[1..][k];
      }
      if exists k :: 0 <= k < |pats| && PatternMatches(pats[k], p) {
        var k :| 0 <= k < |pats| && PatternMatches(pats[k], p);
        if k > 0 {
          assert pats[1..][k - 1] == pats[k];
        }
      }
    }
  }

  lemma IsScannerPathIffSomePattern(p: string)
    ensures IsScannerPath(p) <==>
            exists k :: 0 <= k < |ScannerPathPatterns| && PatternMatches(ScannerPathPatterns[k], p)
  {
    AnyPatternMatchesIff(ScannerPathPatterns, p);
  }

  /** `StartsWithLit` is a prefix test on the lower-cased texts. */
  lemma {:induction false} StartsWithLitIff(p: string, t: string)
    ensures StartsWithLit(p, t) <==> |t| <= |p| && Lower(p[..|t|]) == Lower(t)
  {
    if |t| > 0 && |p| > 0 {
      StartsWithLitIff(p[1..], t[1..]);
      if |t| <= |p| {
        var l1, l2 := Lower(p[..|t|]), Lower(t);
        assert l1[1..] == Lower(p[1..][..|t| - 1]);
        assert l2[1..] == Lower(t[1..]);
        assert l1 == l2 <==> l1[0] == l2[0] && l1[1..] == l2[1..];
      }
    }
  }

  // ---------------------------------------------------------------------------
  // Case-insensitivity
  // ---------------------------------------------------------------------------

  lemma {:induction false} StartsWithLitIgnoresCase(p: string, t: string)
    ensures StartsWithLit(Lower(p), t) == StartsWithLit(p, t)
  {
    if |t| > 0 && |p| > 0 {
      LowerCharIdempotent(p[0]);
      assert Lower(p)[1..] == Lower(p[1..]);
      StartsWithLitIgnoresCase(p[1..], t[1..]);
    }
  }

  lemma {:induction false} MatchPrefixIgnoresCase(p: string, pieces: seq<Piece>, tail: Tail)
    ensures MatchPrefix(Lower(p), pieces, tail) == MatchPrefix(p, pieces, tail)
    decreases |pieces|, 0
  {
    if pieces != [] {
      MatchAlternativesIgnoresCase(p, pieces[0], pieces[1..], tail);
    }
  }

  lemma {:induction false} MatchAlternativesIgnoresCase(p: string, alts: Piece, rest: seq<Piece>, tail: Tail)
    ensures MatchAlternatives(Lower(p), alts, rest, tail) == MatchAlternatives(p, alts, rest, tail)
    decreases |rest|, |alts| + 1
  {
    if alts != [] {
      var a := alts[0];
      StartsWithLitIgnoresCase(p, a);
      if |a| <= |p| {
        assert Lower(p)[|a|..] == Lower(p[|a|..]);
        MatchPrefixIgnoresCase(p[|a|..], rest, tail);
      }
      MatchAlternativesIgnoresCase(p, alts[1..], rest, tail);
    }
  }

  lemma {:induction false} MatchSomewhereIgnoresCase(p: string, pieces: seq<Piece>, tail: Tail)
    ensures MatchSomewhere(Lower(p), pieces, tail) == MatchSomewhere(p, pieces, tail)
  {
    MatchPrefixIgnoresCase(p, pieces, tail);
    if |p| > 0 {
      assert Lower(p)[1..] == Lower(p[1..]);
      MatchSomewhereIgnoresCase(p[1..], pieces, tail);
    }
  }

  lemma {:induction false} AnyPatternMatchesIgnoresCase(pats: seq<Pattern>, p: string)
    ensures AnyPatternMatches(pats, Lower(p)) == AnyPatternMatches(pats, p)
  {
    if pats != [] {
      MatchPrefixIgnoresCase(p, pats[0].pieces, pats[0].tail);
      MatchSomewhereIgnoresCase(p, pats[0].pieces, pats[0].tail);
      AnyPatternMatchesIgnoresCase(pats[1..], p);
    }
  }

  /** Paths that differ only in the case of ASCII letters are blocked alike. */
  lemma IsScannerPathIgnoresCase(p: string, q: string)
    requires Lower(p) == Lower(q)
    ensures IsScannerPath(p) == IsScannerPath(q)
    ensures IsScannerPath(Lower(p)) == IsScannerPath(p)
  {
    AnyPatternMatchesIgnoresCase(ScannerPathPatterns, p);
    AnyPatternMatchesIgnoresCase(ScannerPathPatterns, q);
  }

  // ---------------------------------------------------------------------------
  // Signature characters
  // ---------------------------------------------------------------------------

  /**
   * Every pattern of the list has a piece all of whose alternatives contain
   * one of these characters (after lower-casing), so every blocked path
   * contains one of them too.
   */
  const SignatureChars: set<char> := {'.', 'b', 'c', 'd', 'f', 'k', 'r', 't', 'v'}

  predicate HasSignatureChar(t: string)
  {
    |t| > 0 && (t[0] in SignatureChars || HasSignatureChar(t[1..]))
  }

  predicate AllAltsSigned(alts: Piece)
  {
    alts == [] || (HasSignatureChar(alts[0]) && AllAltsSigned(alts[1..]))
  }

  predicate SomePieceSigned(pieces: seq<Piece>)
  {
    pieces != [] && (AllAltsSigned(pieces[0]) || SomePieceSigned(pieces[1..]))
  }

  /** No character of `p` is a signature character, in either case. */
  predicate AvoidsSignature(p: string)
  {
    p == [] || (LowerChar(p[0]) !in SignatureChars && AvoidsSignature(p[1..]))
  }

  lemma {:induction false} AvoidsSignatureSuffix(p: string, n: nat)
    requires AvoidsSignature(p) && n <= |p|
    ensures AvoidsSignature(p[n..])
  {
    if n > 0 {
      assert p[n..] == p[1..][n - 1..];
      AvoidsSignatureSuffix(p[1..], n - 1);
    }
  }

  lemma {:induction false} SignedLitAbsent(p: string, t: string)
    requires AvoidsSignature(p) && HasSignatureChar(t)
    ensures !StartsWithLit(p, t)
  {
    if |p| > 0 && !(t[0] in SignatureChars) {
      SignedLitAbsent(p[1..], t[1..]);
    }
  }

  lemma {:induction false} SignedPrefixAbsent(p: string, pieces: seq<Piece>, tail: Tail)
    requires AvoidsSignature(p) && SomePieceSigned(pieces)
    ensures !MatchPrefix(p, pieces, tail)
    decreases |pieces|, 0
  {
    SignedAlternativesAbsent(p, pieces[0], pieces[1..], tail);
  }

  lemma {:induction false} SignedAlternativesAbsent(p: string, alts: Piece, rest: seq<Piece>, tail: Tail)
    requires AvoidsSignature(p) && (AllAltsSigned(alts) || SomePieceSigned(rest))
    ensures !MatchAlternatives(p, alts, rest, tail)
    decreases |rest|, |alts| + 1
  {
    if alts != [] {
      var a := alts[0];
      if AllAltsSigned(alts) {
        SignedLitAbsent(p, a);
      } else if StartsWithLit(p, a) {
        AvoidsSignatureSuffix(p, |a|);
        SignedPrefixAbsent(p[|a|..], rest, tail);
      }
      SignedAlternativesAbsent(p, alts[1..], rest, tail);
    }
  }

  lemma {:induction false} SignedSomewhereAbsent(p: string, pieces: seq<Piece>, tail: Tail)
    requires AvoidsSignature(p) && SomePieceSigned(pieces)
    ensures !MatchSomewhere(p, pieces, tail)
  {
    SignedPrefixAbsent(p, pieces, tail);
    if |p| > 0 {
      SignedSomewhereAbsent(p[1..], pieces, tail);
    }
  }

  /** Every pattern of `pats` has a piece whose every alternative holds a signature character. */
  predicate AllSigned(pats: seq<Pattern>)
  {
    forall k :: 0 <= k < |pats| ==> SomePieceSigned(pats[k].pieces)
  }

  lemma {:induction false} UnsignedPathMatchesNone(pats: seq<Pattern>, p: string)
    requires AvoidsSignature(p) && AllSigned(pats)
    ensures !AnyPatternMatches(pats, p)
  {
    if pats != [] {
      SignedPrefixAbsent(p, pats[0].pieces, pats[0].tail);
      SignedSomewhereAbsent(p, pats[0].pieces, pats[0].tail);
      UnsignedPathMatchesNone(pats[1..], p);
    }
  }

  lemma EnvAtRootSigned()
    ensures SomePieceSigned(EnvAtRoot.pieces)
  {
  }

  lemma EnvInDirectorySigned()
    ensures SomePieceSigned(EnvInDirectory.pieces)
  {
  }

  lemma EnvVariantSigned()
    ensures SomePieceSigned(EnvVariant.pieces)
  {
  }

  lemma EnvSuffixSigned()
    ensures SomePieceSigned(EnvSuffix.pieces)
  {
  }

  lemma EnvPatternsSigned()
    ensures AllSigned(EnvPatterns)
  {
    EnvAtRootSigned();
    EnvInDirectorySigned();
    EnvVariantSigned();
    EnvSuffixSigned();
  }

  lemma GitFilesSigned()
    ensures SomePieceSigned(GitFiles.pieces)
  {
  }

  lemma AccessFilesSigned()
    ensures SomePieceSigned(AccessFiles.pieces)
  {
  }

  lemma KeyFilesSigned()
    ensures SomePieceSigned(KeyFiles.pieces)
  {
  }

  lemma BackupFilesSigned()
    ensures SomePieceSigned(BackupFiles.pieces)
  {
  }

  lemma ConfigBackupsSigned()
    ensures SomePieceSigned(ConfigBackups.pieces)
  {
  }

  lemma FilePatternsSigned()
    ensures AllSigned(FilePatterns)
  {
    GitFilesSigned();
    AccessFilesSigned();
    KeyFilesSigned();
    BackupFilesSigned();
    ConfigBackupsSigned();
  }

  lemma SensitiveRootDirectoriesSigned()
    ensures SomePieceSigned(SensitiveRootDirectories.pieces)
  {
    var d := SensitiveDirectories;
    assert AllAltsSigned(d[5..]);
    assert AllAltsSigned(d[4..]);
    assert AllAltsSigned(d[3..]);
    assert AllAltsSigned(d[2..]);
    assert AllAltsSigned(d[1..]);
    assert AllAltsSigned(d[0..]);
  }

  lemma DirectoryPatternsSigned()
    ensures AllSigned(DirectoryPatterns)
  {
    SensitiveRootDirectoriesSigned();
  }

  lemma WordPressConfigSigned()
    ensures SomePieceSigned(WordPressConfig.pieces)
  {
  }

  lemma ConfigFilesSigned()
    ensures SomePieceSigned(ConfigFiles.pieces)
  {
  }

  lemma DatabaseFilesSigned()
    ensures SomePieceSigned(DatabaseFiles.pieces)
  {
  }

  lemma CloudDotFilesSigned()
    ensures SomePieceSigned(CloudDotFiles.pieces)
  {
  }

  lemma ConfigPatternsSigned()
    ensures AllSigned(ConfigPatterns)
  {
    WordPressConfigSigned();
    ConfigFilesSigned();
    DatabaseFilesSigned();
    CloudDotFilesSigned();
  }

  lemma AwsCredentialsSigned()
    ensures SomePieceSigned(AwsCredentials.pieces)
  {
  }

  lemma StripeCredentialsSigned()
    ensures SomePieceSigned(StripeCredentials.pieces)
  {
  }

  lemma ServiceKeyPatternsSigned()
    ensures AllSigned(ServiceKeyPatterns)
  {
    AwsCredentialsSigned();
    StripeCredentialsSigned();
  }

  lemma CredentialFilesSigned()
    ensures SomePieceSigned(CredentialFiles.pieces)
  {
  }

  lemma SecretFilesSigned()
    ensures SomePieceSigned(SecretFiles.pieces)
  {
  }

  lemma CredentialPatternsSigned()
    ensures AllSigned(CredentialPatterns)
  {
    CredentialFilesSigned();
    SecretFilesSigned();
  }

  lemma ToolDotFilesSigned()
    ensures SomePieceSigned(ToolDotFiles.pieces)
  {
  }

  lemma AdminScriptsSigned()
    ensures SomePieceSigned(AdminScripts.pieces)
  {
  }

  lemma DebugFilesSigned()
    ensures SomePieceSigned(DebugFiles.pieces)
  {
  }

  lemma ToolPatternsSigned()
    ensures AllSigned(ToolPatterns)
  {
    ToolDotFilesSigned();
    AdminScriptsSigned();
    DebugFilesSigned();
  }

  lemma ErrorLogsSigned()
    ensures SomePieceSigned(ErrorLogs.pieces)
  {
  }

  lemma ArtisanScriptSigned()
    ensures SomePieceSigned(ArtisanScript.pieces)
  {
  }

  lemma ComposerLockSigned()
    ensures SomePieceSigned(ComposerLock.pieces)
  {
  }

  lemma LogPatternsSigned()
    ensures AllSigned(LogPatterns)
  {
    ErrorLogsSigned();
    ArtisanScriptSigned();
    ComposerLockSigned();
  }

  lemma PackageManifestsSigned()
    ensures SomePieceSigned(PackageManifests.pieces)
  {
  }

  lemma PipfilesSigned()
    ensures SomePieceSigned(Pipfiles.pieces)
  {
  }

  lemma GemfileLockSigned()
    ensures SomePieceSigned(GemfileLock.pieces)
  {
  }

  lemma ManifestPatternsSigned()
    ensures AllSigned(ManifestPatterns)
  {
    PackageManifestsSigned();
    PipfilesSigned();
    GemfileLockSigned();
  }

  lemma TerraformStateSigned()
    ensures SomePieceSigned(TerraformState.pieces)
  {
  }

  lemma DockerComposeSigned()
    ensures SomePieceSigned(DockerCompose.pieces)
  {
  }

  lemma PackageManagerRcSigned()
    ensures SomePieceSigned(PackageManagerRc.pieces)
  {
  }

  lemma InfraPatternsSigned()
    ensures AllSigned(InfraPatterns)
  {
    TerraformStateSigned();
    DockerComposeSigned();
    PackageManagerRcSigned();
  }

  lemma AllSignedConcat(a: seq<Pattern>, b: seq<Pattern>)
    requires AllSigned(a) && AllSigned(b)
    ensures AllSigned(a + b)
  {
    forall k | 0 <= k < |a + b|
      ensures SomePieceSigned((a + b)[k].pieces)
    {
      if k >= |a| {
        assert (a + b)[k] == b[k - |a|];
      }
    }
  }

  lemma ScannerPatternsSigned()
    ensures AllSigned(ScannerPathPatterns)
  {
    EnvPatternsSigned();
    FilePatternsSigned();
    DirectoryPatternsSigned();
    ConfigPatternsSigned();
    ServiceKeyPatternsSigned();
    CredentialPatternsSigned();
    ToolPatternsSigned();
    LogPatternsSigned();
    ManifestPatternsSigned();
    InfraPatternsSigned();
    AllSignedConcat(EnvPatterns, FilePatterns);
    AllSignedConcat(EnvPatterns + FilePatterns, DirectoryPatterns);
    AllSignedConcat(EnvPatterns + FilePatterns + DirectoryPatterns, ConfigPatterns);
    AllSignedConcat(EnvPatterns + FilePatterns + DirectoryPatterns + ConfigPatterns, ServiceKeyPatterns);
    AllSignedConcat(EnvPatterns + FilePatterns + DirectoryPatterns + ConfigPatterns + ServiceKeyPatterns, CredentialPatterns);
    AllSignedConcat(EnvPatterns + FilePatterns + DirectoryPatterns + ConfigPatterns + ServiceKeyPatterns + CredentialPatterns, ToolPatterns);
    AllSignedConcat(EnvPatterns + FilePatterns + DirectoryPatterns + ConfigPatterns + ServiceKeyPatterns + CredentialPatterns + ToolPatterns, LogPatterns);
    AllSignedConcat(EnvPatterns + FilePatterns + DirectoryPatterns + ConfigPatterns + ServiceKeyPatterns + CredentialPatterns + ToolPatterns + LogPatterns, ManifestPatterns);
    AllSignedConcat(EnvPatterns + FilePatterns + DirectoryPatterns + ConfigPatterns + ServiceKeyPatterns + CredentialPatterns + ToolPatterns + LogPatterns + ManifestPatterns, InfraPatterns);
  }

  /** A path none of whose characters is a signature character is never a scanner path. */
  lemma UnsignedPathIsNotScannerPath(p: string)
    requires AvoidsSignature(p)
    ensures !IsScannerPath(p)
  {
    ScannerPatternsSigned();
    UnsignedPathMatchesNone(ScannerPathPatterns, p);
  }

  // ---------------------------------------------------------------------------
  // Particular paths
  // ---------------------------------------------------------------------------

  lemma {:induction false} AvoidsSignatureConcat(a: string, b: string)
    requires AvoidsSignature(a) && AvoidsSignature(b)
    ensures AvoidsSignature(a + b)
  {
    if a != [] {
      assert (a + b)[1..] == a[1..] + b;
      AvoidsSignatureConcat(a[1..], b);
    } else {
      assert a + b == b;
    }
  }

  lemma MenusApiAvoidsSignature()
    ensures AvoidsSignature("/api/menus")
  {
    assert AvoidsSignature("/api") && AvoidsSignature("/menus");
    assert "/api/menus" == "/api" + "/menus";
    AvoidsSignatureConcat("/api", "/menus");
  }

  lemma NewMenuPageAvoidsSignature()
    ensures AvoidsSignature("/menu/new")
  {
    assert AvoidsSignature("/menu") && AvoidsSignature("/new");
    assert "/menu/new" == "/menu" + "/new";
    AvoidsSignatureConcat("/menu", "/new");
  }

  /** The root path and the application's own pages and API paths are not scanner paths. */
  lemma AppPathsAreNotScannerPaths()
    ensures !IsScannerPath("/")
    ensures !IsScannerPath("/api/menus")
    ensures !IsScannerPath("/menu/new")
  {
    assert AvoidsSignature("/");
    MenusApiAvoidsSignature();
    NewMenuPageAvoidsSignature();
    UnsignedPathIsNotScannerPath("/");
    UnsignedPathIsNotScannerPath("/api/menus");
    UnsignedPathIsNotScannerPath("/menu/new");
  }

  /** A pattern of the list that matches a path makes it a scanner path. */
  lemma MatchingPatternMakesScannerPath(pat: Pattern, p: string)
    requires pat in ScannerPathPatterns && PatternMatches(pat, p)
    ensures IsScannerPath(p)
  {
    IsScannerPathIffSomePattern(p);
    var k :| 0 <= k < |ScannerPathPatterns| && ScannerPathPatterns[k] == pat;
  }

  lemma EnvPatternsListed()
    ensures EnvAtRoot in ScannerPathPatterns && EnvSuffix in ScannerPathPatterns
  {
    assert EnvAtRoot in EnvPatterns && EnvSuffix in EnvPatterns;
  }

  /** The first pattern matches every path whose lower-cased form starts with "/.env". */
  lemma EnvAtRootMatches(p: string)
    requires |p| >= 5 && Lower(p)[..5] == "/.env"
    ensures PatternMatches(EnvAtRoot, p)
  {
    assert Lower("/.env") == "/.env";
    LowerSlice(p, 0, 5);
    StartsWithLitIff(p, "/.env");
    assert MatchPrefix(p[5..], [], Open);
  }

  /** The fourth pattern matches every path whose lower-cased form ends with ".env". */
  lemma EnvSuffixMatches(p: string)
    requires |p| >= 4 && Lower(p)[|p| - 4..] == ".env"
    ensures PatternMatches(EnvSuffix, p)
  {
    var q := p[|p| - 4..];
    assert Lower(".env") == ".env";
    LowerSlice(p, |p| - 4, |p|);
    assert q[..4] == q;
    StartsWithLitIff(q, ".env");
    assert MatchPrefix(q[4..], [], AtEnd);
    assert MatchPrefix(q, EnvSuffix.pieces, AtEnd);
    MatchSomewhereIff(p, EnvSuffix.pieces, EnvSuffix.tail);
  }

  /**
   * A path whose lower-cased form starts with "/.env" or ends with ".env" is a
   * scanner path, whatever the case of its letters.
   */
  lemma EnvPathIsScannerPath(p: string)
    requires (|p| >= 5 && Lower(p)[..5] == "/.env") || (|p| >= 4 && Lower(p)[|p| - 4..] == ".env")
    ensures IsScannerPath(p)
  {
    EnvPatternsListed();
    if |p| >= 5 && Lower(p)[..5] == "/.env" {
      EnvAtRootMatches(p);
      MatchingPatternMakesScannerPath(EnvAtRoot, p);
    } else {
      EnvSuffixMatches(p);
      MatchingPatternMakesScannerPath(EnvSuffix, p);
    }
  }

  // The directory rule is anchored at the start of the path and needs '/' or
  // the end of the path right after the directory name.

  /**
   * The directory rule matches exactly the paths that begin with one of the
   * directory names, ignoring case, followed by '/' or by nothing.
   */
  lemma DirectoryRuleIff(p: string)
    ensures PatternMatches(SensitiveRootDirectories, p) <==>
            exists i :: 0 <= i < |SensitiveDirectories|
                        && StartsWithLit(p, SensitiveDirectories[i])
                        && TailHolds(p[|SensitiveDirectories[i]|..], SlashOrEnd)
  {
    assert SensitiveRootDirectories.pieces[1..] == [];
    assert PatternMatches(SensitiveRootDirectories, p) == MatchAlternatives(p, SensitiveDirectories, [], SlashOrEnd);
    MatchAlternativesIff(p, SensitiveDirectories, [], SlashOrEnd);
  }

  lemma DirectoryRuleMatchesBareDirectory()
    ensures PatternMatches(SensitiveRootDirectories, "/tmp")
  {
    assert StartsWithLit("/tmp", SensitiveDirectories[3]);
    assert TailHolds("/tmp"[4..], SlashOrEnd);
    DirectoryRuleIff("/tmp");
  }

  lemma DirectoryRuleMatchesPathBelowDirectory()
    ensures PatternMatches(SensitiveRootDirectories, "/backup/x")
  {
    assert StartsWithLit("/backup/x", SensitiveDirectories[2]);
    assert TailHolds("/backup/x"[7..], SlashOrEnd);
    DirectoryRuleIff("/backup/x");
  }

  lemma DirectoryRuleNeedsBoundary()
    ensures !PatternMatches(SensitiveRootDirectories, "/backups")
  {
    DirectoryRuleIff("/backups");
    forall i | 0 <= i < |SensitiveDirectories|
      ensures !(StartsWithLit("/backups", SensitiveDirectories[i])
                && TailHolds("/backups"[|SensitiveDirectories[i]|..], SlashOrEnd))
    {
      if i == 2 {
        assert "/backups"[7..] == "s";
      }
    }
  }
}
