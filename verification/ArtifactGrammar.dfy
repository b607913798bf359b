/** The closed grammar of managed names derived from one authority basename. */
module ArtifactGrammar {
  import opened Wrappers
  import Storage

  datatype Purpose = ForAuthority | ForBackup | ForSnapshot | ForReceipt

  type Generation = Storage.Generation

  datatype Kind =
    | AuthorityKind
    | LockKind
    | GenerationZeroBackup
    | VersionOneSnapshot
    | VersionTwoSnapshot
    | PrototypeReceipt
    | TemporaryKind

  datatype Artifact = Artifact(kind: Kind, basename: string, digest: Option<string>, purpose: Option<Purpose>)

  /** Everything a managed name can say. */
  datatype Managed =
    | Authority
    | Lock
    | Backup(generation: Generation, digest: string)
    | Receipt(digest: string)
    | Temporary(purpose: Purpose, token: string)

  predicate IsHex(c: char) {
    '0' <= c <= '9' || 'a' <= c <= 'f'
  }

  predicate Hex(s: string, n: nat) {
    |s| == n && forall i :: 0 <= i < |s| ==> IsHex(s[i])
  }

  const DIGEST_LENGTH := 64
  const TOKEN_LENGTH := 32

  predicate Valid(m: Managed) {
    match m
    case Backup(_, digest) => Hex(digest, DIGEST_LENGTH)
    case Receipt(digest) => Hex(digest, DIGEST_LENGTH)
    case Temporary(_, token) => Hex(token, TOKEN_LENGTH)
    case _ => true
  }

  // Category Cc of the Unicode character database.
  predicate IsControl(c: char) {
    c < ' ' || '\U{7F}' <= c <= '\U{9F}'
  }

  predicate SafeText(s: string) {
    forall i :: 0 <= i < |s| ==> s[i] != '/' && s[i] != '\\' && !IsControl(s[i])
  }

  /** A basename that is safe for relative use: it cannot leave the parent, and does
      not end in what Windows would strip. */
  predicate IsSafeBasename(s: string) {
    && s != "" && s != "." && s != ".."
    && s[|s| - 1] != ' ' && s[|s| - 1] != '.'
    && SafeText(s)
  }

  function PurposeText(p: Purpose): string {
    match p
    case ForAuthority => "authority"
    case ForBackup => "backup"
    case ForSnapshot => "snapshot"
    case ForReceipt => "receipt"
  }

  function GenerationText(g: Generation): string {
    match g
    case GenerationZero => "v0"
    case VersionOne => "v1"
    case VersionTwo => "v2"
  }

  function LockBasename(authority: string): string {
    authority + ".lock"
  }

  function BackupBasename(authority: string, g: Generation, digest: string): string {
    authority + "." + GenerationText(g) + "." + digest + ".bak"
  }

  function ReceiptBasename(authority: string, digest: string): string {
    authority + ".prototype." + digest + ".receipt"
  }

  function TemporaryBasename(authority: string, p: Purpose, token: string): string {
    "." + authority + "." + PurposeText(p) + "." + token + ".tmp"
  }

  function Print(authority: string, m: Managed): string {
    match m
    case Authority => authority
    case Lock => LockBasename(authority)
    case Backup(g, digest) => BackupBasename(authority, g, digest)
    case Receipt(digest) => ReceiptBasename(authority, digest)
    case Temporary(p, token) => TemporaryBasename(authority, p, token)
  }

  /** What stands between a fixed prefix and a fixed suffix, if it is n hex digits. */
  function Between(s: string, prefix: string, n: nat, suffix: string): Option<string> {
    if |s| == |prefix| + n + |suffix| && s[..|prefix|] == prefix && s[|prefix| + n..] == suffix
       && Hex(s[|prefix|..|prefix| + n], n)
    then Some(s[|prefix|..|prefix| + n]) else None
  }

  function KindOf(g: Generation): Kind {
    match g
    case GenerationZero => GenerationZeroBackup
    case VersionOne => VersionOneSnapshot
    case VersionTwo => VersionTwoSnapshot
  }

  function BackupDigest(authority: string, s: string, g: Generation): Option<string> {
    Between(s, authority + "." + GenerationText(g) + ".", DIGEST_LENGTH, ".bak")
  }

  function ParseBackup(authority: string, s: string, g: Generation): Option<Artifact> {
    var digest := BackupDigest(authority, s, g);
    if digest.Some? then Some(Artifact(KindOf(g), s, digest, None)) else None
  }

  function ParseReceipt(authority: string, s: string): Option<Artifact> {
    var digest := Between(s, authority + ".prototype.", DIGEST_LENGTH, ".receipt");
    if digest.Some? then Some(Artifact(PrototypeReceipt, s, digest, None)) else None
  }

  function OrElse<T>(first: Option<T>, second: Option<T>): Option<T> {
    if first.Some? then first else second
  }

  function ParseContentAddressed(authority: string, s: string): Option<Artifact> {
    OrElse(ParseBackup(authority, s, Storage.GenerationZero),
           OrElse(ParseBackup(authority, s, Storage.VersionOne),
                  OrElse(ParseBackup(authority, s, Storage.VersionTwo), ParseReceipt(authority, s))))
  }

  function TokenFor(authority: string, s: string, p: Purpose): Option<string> {
    Between(s, "." + authority + "." + PurposeText(p) + ".", TOKEN_LENGTH, ".tmp")
  }

  function ParseTemporaryFor(authority: string, s: string, p: Purpose): Option<Artifact> {
    if TokenFor(authority, s, p).Some? then Some(Artifact(TemporaryKind, s, None, Some(p))) else None
  }

  function ParseTemporary(authority: string, s: string): Option<Artifact> {
    OrElse(ParseTemporaryFor(authority, s, ForAuthority),
           OrElse(ParseTemporaryFor(authority, s, ForBackup),
                  OrElse(ParseTemporaryFor(authority, s, ForSnapshot), ParseTemporaryFor(authority, s, ForReceipt))))
  }

  /** Classify one exact basename without opening it. */
  function Parse(authority: string, s: string): Option<Artifact> {
    if !IsSafeBasename(s) then None
    else if s == authority then Some(Artifact(AuthorityKind, s, None, None))
    else if s == LockBasename(authority) then Some(Artifact(LockKind, s, None, None))
    else OrElse(ParseContentAddressed(authority, s), ParseTemporary(authority, s))
  }

  /** The classification a managed name deserves. */
  function Describe(authority: string, m: Managed): Artifact {
    var s := Print(authority, m);
    match m
    case Authority => Artifact(AuthorityKind, s, None, None)
    case Lock => Artifact(LockKind, s, None, None)
    case Backup(g, digest) => Artifact(KindOf(g), s, Some(digest), None)
    case Receipt(digest) => Artifact(PrototypeReceipt, s, Some(digest), None)
    case Temporary(p, _) => Artifact(TemporaryKind, s, None, Some(p))
  }

  /** Digests and tokens are lower-case hexadecimal, and control characters are those
      below the space and from delete to the last of the second control block. */
  lemma CharactersAre(c: char)
    ensures IsHex(c) <==> c in {'0', '1', '2', '3', '4', '5', '6', '7', '8', '9', 'a', 'b', 'c', 'd', 'e', 'f'}
    ensures IsControl(c) <==> c as int <= 31 || 127 <= c as int <= 159
  {
  }

  /** The names of one authority, as they appear in its directory. */
  lemma PrintedBackup(authority: string, digest: string)
    ensures Print(authority, Backup(Storage.GenerationZero, digest)) == authority + ".v0." + digest + ".bak"
    ensures Print(authority, Backup(Storage.VersionOne, digest)) == authority + ".v1." + digest + ".bak"
    ensures Print(authority, Backup(Storage.VersionTwo, digest)) == authority + ".v2." + digest + ".bak"
  {
    assert "." + "v0" + "." == ".v0." && "." + "v1" + "." == ".v1." && "." + "v2" + "." == ".v2.";
    assert authority + "." + "v0" + "." == authority + ("." + "v0" + ".");
    assert authority + "." + "v1" + "." == authority + ("." + "v1" + ".");
    assert authority + "." + "v2" + "." == authority + ("." + "v2" + ".");
  }

  lemma PrintedOthers(authority: string, digest: string)
    ensures Print(authority, Authority) == authority && Print(authority, Lock) == authority + ".lock"
    ensures Print(authority, Receipt(digest)) == authority + ".prototype." + digest + ".receipt"
  {
  }

  lemma PrintedTemporary(authority: string, p: Purpose, token: string)
    ensures Print(authority, Temporary(p, token))
            == "." + authority
               + (match p
                  case ForAuthority => ".authority."
                  case ForBackup => ".backup."
                  case ForSnapshot => ".snapshot."
                  case ForReceipt => ".receipt.") + token + ".tmp"
  {
    assert "." + PurposeText(p) + "." == match p
                                         case ForAuthority => ".authority."
                                         case ForBackup => ".backup."
                                         case ForSnapshot => ".snapshot."
                                         case ForReceipt => ".receipt.";
    assert "." + authority + "." + PurposeText(p) + "." == "." + authority + ("." + PurposeText(p) + ".");
  }

  /** The safe basenames are those that stay where they are put. */
  lemma SafeBasenames()
    ensures IsSafeBasename("accounts.json") && IsSafeBasename(".accounts.json") && IsSafeBasename("a b")
    ensures !IsSafeBasename("") && !IsSafeBasename(".") && !IsSafeBasename("..")
    ensures !IsSafeBasename("a/b") && !IsSafeBasename("a\\b") && !IsSafeBasename("a\tb")
    ensures !IsSafeBasename("a ") && !IsSafeBasename("a.")
  {
    assert "a/b"[1] == '/' && "a\\b"[1] == '\\' && "a\tb"[1] == '\t';
  }

  lemma BetweenIff(s: string, prefix: string, n: nat, suffix: string, middle: string)
    ensures Between(s, prefix, n, suffix) == Some(middle) <==> Hex(middle, n) && s == prefix + middle + suffix
  {
    if Hex(middle, n) && s == prefix + middle + suffix {
      assert s[..|prefix|] == prefix && s[|prefix| + n..] == suffix && s[|prefix|..|prefix| + n] == middle;
    }
    if Between(s, prefix, n, suffix) == Some(middle) {
      assert s == s[..|prefix|] + s[|prefix|..|prefix| + n] + s[|prefix| + n..];
    }
  }

  /** The extra length of a name tells its kind, and the purpose of a temporary. */
  lemma Lengths(authority: string, m: Managed)
    requires Valid(m)
    ensures |Print(authority, m)| == |authority| +
            match m {
              case Authority => 0
              case Lock => 5
              case Backup(_, _) => 72
              case Receipt(_) => 83
              case Temporary(p, _) => 39 + |PurposeText(p)|
            }
    ensures m.Temporary? ==> |PurposeText(m.purpose)| == match m.purpose {
              case ForAuthority => 9
              case ForBackup => 6
              case ForSnapshot => 8
              case ForReceipt => 7
            }
  {
  }

  lemma BackupIs(authority: string, s: string, g: Generation, digest: string)
    ensures BackupDigest(authority, s, g) == Some(digest) <==>
            Hex(digest, DIGEST_LENGTH) && s == BackupBasename(authority, g, digest)
  {
    BetweenIff(s, authority + "." + GenerationText(g) + ".", DIGEST_LENGTH, ".bak", digest);
  }

  lemma TokenIs(authority: string, s: string, p: Purpose, token: string)
    ensures TokenFor(authority, s, p) == Some(token) <==>
            Hex(token, TOKEN_LENGTH) && s == TemporaryBasename(authority, p, token)
  {
    BetweenIff(s, "." + authority + "." + PurposeText(p) + ".", TOKEN_LENGTH, ".tmp", token);
  }

  /** The generation stands right after the authority basename. */
  lemma GenerationAt(authority: string, g: Generation, digest: string)
    ensures var s := BackupBasename(authority, g, digest);
            |s| > |authority| + 2 &&
            s[|authority| + 2] == match g { case GenerationZero => '0' case VersionOne => '1' case VersionTwo => '2' }
  {
  }

  /** No string has two classifications: printing is injective. */
  lemma PrintIsInjective(authority: string, m: Managed, n: Managed)
    requires Valid(m) && Valid(n) && Print(authority, m) == Print(authority, n)
    ensures m == n
  {
    Lengths(authority, m);
    Lengths(authority, n);
    match m
    case Authority =>
    case Lock =>
    case Backup(g, digest) =>
      GenerationAt(authority, g, digest);
      GenerationAt(authority, n.generation, n.digest);
      BackupIs(authority, Print(authority, m), g, digest);
      BackupIs(authority, Print(authority, m), g, n.digest);
    case Receipt(digest) =>
      BetweenIff(Print(authority, m), authority + ".prototype.", DIGEST_LENGTH, ".receipt", digest);
      BetweenIff(Print(authority, m), authority + ".prototype.", DIGEST_LENGTH, ".receipt", n.digest);
    case Temporary(p, token) =>
      TokenIs(authority, Print(authority, m), p, token);
      TokenIs(authority, Print(authority, m), p, n.token);
  }

  lemma SafeJoin(a: string, b: string, c: string)
    requires SafeText(a) && SafeText(b) && SafeText(c)
    ensures SafeText(a + b + c)
  {
  }

  lemma PartsAreSafe(m: Managed)
    requires Valid(m)
    ensures m.Backup? ==> SafeText(GenerationText(m.generation)) && SafeText(m.digest)
    ensures m.Receipt? ==> SafeText(m.digest)
    ensures m.Temporary? ==> SafeText(PurposeText(m.purpose)) && SafeText(m.token)
    ensures SafeText(".") && SafeText(".prototype.") && SafeText(".bak") && SafeText(".receipt") && SafeText(".tmp")
            && SafeText(".lock")
  {
  }

  lemma SafeBackup(authority: string, g: Generation, digest: string)
    requires SafeText(authority) && Hex(digest, DIGEST_LENGTH)
    ensures SafeText(BackupBasename(authority, g, digest))
  {
    PartsAreSafe(Backup(g, digest));
    SafeJoin(authority, ".", GenerationText(g));
    SafeJoin(authority + "." + GenerationText(g), ".", digest);
  }

  lemma SafeReceipt(authority: string, digest: string)
    requires SafeText(authority) && Hex(digest, DIGEST_LENGTH)
    ensures SafeText(ReceiptBasename(authority, digest))
  {
    PartsAreSafe(Receipt(digest));
    SafeJoin(authority, ".prototype.", digest);
  }

  lemma SafeTemporary(authority: string, p: Purpose, token: string)
    requires SafeText(authority) && Hex(token, TOKEN_LENGTH)
    ensures SafeText(TemporaryBasename(authority, p, token))
  {
    PartsAreSafe(Temporary(p, token));
    SafeJoin(".", authority, ".");
    SafeJoin("." + authority + ".", PurposeText(p), ".");
    SafeJoin("." + authority + "." + PurposeText(p) + ".", token, ".tmp");
  }

  /** Every name printed for a safe authority is itself safe. */
  lemma PrintIsSafe(authority: string, m: Managed)
    requires IsSafeBasename(authority) && Valid(m)
    ensures IsSafeBasename(Print(authority, m))
  {
    PartsAreSafe(Lock);
    match m
    case Authority =>
    case Lock =>
    case Backup(g, digest) => SafeBackup(authority, g, digest);
    case Receipt(digest) => SafeReceipt(authority, digest);
    case Temporary(p, token) => SafeTemporary(authority, p, token);
  }

  /** What parses was printed, and is classified as what it says. */
  lemma ParseIsSound(authority: string, s: string) returns (m: Managed)
    requires Parse(authority, s).Some?
    ensures Valid(m) && s == Print(authority, m) && Parse(authority, s) == Some(Describe(authority, m))
  {
    if s == authority {
      m := Authority;
    } else if s == LockBasename(authority) {
      m := Lock;
    } else if ParseContentAddressed(authority, s).Some? {
      m := ContentAddressedIsSound(authority, s);
    } else {
      m := TemporaryIsSound(authority, s);
    }
  }

  lemma ContentAddressedIsSound(authority: string, s: string) returns (m: Managed)
    requires ParseContentAddressed(authority, s).Some?
    ensures Valid(m) && s == Print(authority, m) && (m.Backup? || m.Receipt?)
    ensures ParseContentAddressed(authority, s) == Some(Describe(authority, m))
  {
    var digest := ParseContentAddressed(authority, s).value.digest.value;
    if g: Generation :| && ParseBackup(authority, s, g).Some?
                        && ParseContentAddressed(authority, s) == ParseBackup(authority, s, g) {
      m := Backup(g, digest);
      BackupIs(authority, s, g, digest);
    } else {
      m := Receipt(digest);
      BetweenIff(s, authority + ".prototype.", DIGEST_LENGTH, ".receipt", digest);
    }
  }

  lemma TemporaryIsSound(authority: string, s: string) returns (m: Managed)
    requires ParseTemporary(authority, s).Some?
    ensures Valid(m) && s == Print(authority, m) && m.Temporary?
    ensures ParseTemporary(authority, s) == Some(Describe(authority, m))
  {
    var p := ParseTemporary(authority, s).value.purpose.value;
    var token := TokenFor(authority, s, p).value;
    m := Temporary(p, token);
    TokenIs(authority, s, p, token);
  }

  lemma BackupParses(authority: string, g: Generation, digest: string)
    requires Hex(digest, DIGEST_LENGTH)
    ensures ParseContentAddressed(authority, BackupBasename(authority, g, digest)).Some?
  {
    BackupIs(authority, BackupBasename(authority, g, digest), g, digest);
  }

  lemma TemporaryParses(authority: string, p: Purpose, token: string)
    requires Hex(token, TOKEN_LENGTH)
    ensures ParseTemporary(authority, TemporaryBasename(authority, p, token)).Some?
  {
    TokenIs(authority, TemporaryBasename(authority, p, token), p, token);
  }

  /** Every printed name is classified as something. */
  lemma PrintParses(authority: string, m: Managed)
    requires IsSafeBasename(authority) && Valid(m)
    ensures Parse(authority, Print(authority, m)).Some?
  {
    PrintIsSafe(authority, m);
    match m
    case Authority =>
    case Lock =>
    case Backup(g, digest) => BackupParses(authority, g, digest);
    case Receipt(digest) =>
      BetweenIff(Print(authority, m), authority + ".prototype.", DIGEST_LENGTH, ".receipt", digest);
    case Temporary(p, token) => TemporaryParses(authority, p, token);
  }

  /** Round trip: every printed name parses back to its kind, digest and purpose. */
  lemma ParseOfPrint(authority: string, m: Managed)
    requires IsSafeBasename(authority) && Valid(m)
    ensures Parse(authority, Print(authority, m)) == Some(Describe(authority, m))
  {
    PrintParses(authority, m);
    var n := ParseIsSound(authority, Print(authority, m));
    PrintIsInjective(authority, m, n);
  }
}
