/** The environment of a Job: two ConfigMaps and a Secret merged through three tables of keys. */
module Environment {
  import opened Wrappers

  /** The keys the program knows, each standing for its text ("upload-method", "nfs-share", ...), and all others. */
  datatype Key =
    | UploadMethod | CaseNumber | Obfuscate | NfsShare | NfsOptions | FtpServer
    | SimulationMode | Debug
    | Username | Password
    | Other(text: string)

  datatype Variable =
    | UPLOAD_METHOD | CASE_NUMBER | OBFUSCATE | NFS_SHARE | NFS_OPTIONS | FTP_SERVER
    | SIMULATION_MODE | DEBUG
    | USERNAME | PASSWORD

  type Data = map<Key, string>
  type Configuration = map<Variable, string>
  type Table = Key -> Option<Variable>
  type Inverse = Variable -> Option<Key>

  function UploadTable(k: Key): Option<Variable> {
    match k
    case UploadMethod => Some(UPLOAD_METHOD)
    case CaseNumber => Some(CASE_NUMBER)
    case Obfuscate => Some(OBFUSCATE)
    case NfsShare => Some(NFS_SHARE)
    case NfsOptions => Some(NFS_OPTIONS)
    case FtpServer => Some(FTP_SERVER)
    case _ => None
  }

  function DevelopmentTable(k: Key): Option<Variable> {
    match k
    case SimulationMode => Some(SIMULATION_MODE)
    case Debug => Some(DEBUG)
    case _ => None
  }

  function SecretTable(k: Key): Option<Variable> {
    match k
    case Username => Some(USERNAME)
    case Password => Some(PASSWORD)
    case _ => None
  }

  datatype Source = FromUpload | FromDevelopment | FromSecret

  /** The one source and key a variable can come from. */
  function Origin(v: Variable): (Source, Key) {
    match v
    case UPLOAD_METHOD => (FromUpload, UploadMethod)
    case CASE_NUMBER => (FromUpload, CaseNumber)
    case OBFUSCATE => (FromUpload, Obfuscate)
    case NFS_SHARE => (FromUpload, NfsShare)
    case NFS_OPTIONS => (FromUpload, NfsOptions)
    case FTP_SERVER => (FromUpload, FtpServer)
    case SIMULATION_MODE => (FromDevelopment, SimulationMode)
    case DEBUG => (FromDevelopment, Debug)
    case USERNAME => (FromSecret, Username)
    case PASSWORD => (FromSecret, Password)
  }

  function KeyIn(source: Source): Inverse {
    (v: Variable) => if Origin(v).0 == source then Some(Origin(v).1) else None
  }

  /** The three tables are injective and share no variable: Origin inverts them all. */
  lemma OriginInvertsTheTables(k: Key, v: Variable)
    ensures UploadTable(k) == Some(v) <==> KeyIn(FromUpload)(v) == Some(k)
    ensures DevelopmentTable(k) == Some(v) <==> KeyIn(FromDevelopment)(v) == Some(k)
    ensures SecretTable(k) == Some(v) <==> KeyIn(FromSecret)(v) == Some(k)
  {
  }

  lemma TablesInverted()
    ensures forall k, v :: UploadTable(k) == Some(v) <==> KeyIn(FromUpload)(v) == Some(k)
    ensures forall k, v :: DevelopmentTable(k) == Some(v) <==> KeyIn(FromDevelopment)(v) == Some(k)
    ensures forall k, v :: SecretTable(k) == Some(v) <==> KeyIn(FromSecret)(v) == Some(k)
  {
    forall k, v
      ensures UploadTable(k) == Some(v) <==> KeyIn(FromUpload)(v) == Some(k)
      ensures DevelopmentTable(k) == Some(v) <==> KeyIn(FromDevelopment)(v) == Some(k)
      ensures SecretTable(k) == Some(v) <==> KeyIn(FromSecret)(v) == Some(k)
    {
      OriginInvertsTheTables(k, v);
    }
  }

  // ---------- trimming ----------

  function TrimLeft(s: string): (t: string)
    ensures t == [] || t[0] != '\n'
    ensures |t| <= |s| && t == s[|s| - |t|..] && forall i | 0 <= i < |s| - |t| :: s[i] == '\n'
  {
    if s == [] || s[0] != '\n' then s else TrimLeft(s[1..])
  }

  function TrimRight(s: string): (t: string)
    ensures t == [] || t[|t| - 1] != '\n'
    ensures |t| <= |s| && t == s[..|t|] && forall i | |t| <= i < |s| :: s[i] == '\n'
  {
    if s == [] || s[|s| - 1] != '\n' then s else TrimRight(s[..|s| - 1])
  }

  function Trim(s: string): string {
    TrimRight(TrimLeft(s))
  }

  /** t is s without n characters in front and without some at the end, all of them newlines. */
  ghost predicate CutsNewlines(s: string, t: string, n: nat) {
    && n + |t| <= |s| && t == s[n..n + |t|]
    && (forall i | 0 <= i < n :: s[i] == '\n')
    && (forall i | n + |t| <= i < |s| :: s[i] == '\n')
  }

  lemma SliceOfSlice(s: string, n: nat, m: nat)
    requires n + m <= |s|
    ensures s[n..][..m] == s[n..n + m]
  {
  }

  /** u is s without newlines in front, and t is u without newlines behind. */
  lemma CutBothEnds(s: string, u: string, t: string)
    requires |u| <= |s| && u == s[|s| - |u|..] && forall i | 0 <= i < |s| - |u| :: s[i] == '\n'
    requires |t| <= |u| && t == u[..|t|] && forall i | |t| <= i < |u| :: u[i] == '\n'
    ensures CutsNewlines(s, t, |s| - |u|)
  {
    var n := |s| - |u|;
    SliceOfSlice(s, n, |t|);
    forall i | n + |t| <= i < |s| ensures s[i] == '\n' {
      assert s[i] == u[i - n];
    }
  }

  /** What is left has no newline at either end, and only newlines were cut off. */
  lemma TrimCutsOnlyNewlines(s: string)
    ensures Trim(s) != [] ==> Trim(s)[0] != '\n' && Trim(s)[|Trim(s)| - 1] != '\n'
    ensures exists n: nat :: CutsNewlines(s, Trim(s), n)
  {
    CutBothEnds(s, TrimLeft(s), Trim(s));
  }

  // ---------- merging ----------

  function Clean(v: string, trim: bool): string {
    if trim then Trim(v) else v
  }

  function At(c: Configuration, v: Variable): Option<string> {
    if v in c then Some(c[v]) else None
  }

  function Found(data: Data, key: Option<Key>, trim: bool): Option<string> {
    if key.Some? && key.value in data then Some(Clean(data[key.value], trim)) else None
  }

  function Or(first: Option<string>, second: Option<string>): Option<string> {
    if first.Some? then first else second
  }

  /** The configuration while the keys in todo are still to be visited. */
  ghost predicate Merged(
        r: Configuration, before: Configuration, data: Data, inverse: Inverse, trim: bool, todo: set<Key>) {
    forall v :: At(r, v) == MergedAt(before, data, inverse, trim, todo, v)
  }

  ghost function MergedAt(
        before: Configuration, data: Data, inverse: Inverse, trim: bool, todo: set<Key>, v: Variable): Option<string> {
    if inverse(v).Some? && inverse(v).value in todo then At(before, v)
    else Or(Found(data, inverse(v), trim), At(before, v))
  }

  /** One visit. */
  lemma MergedOneMore(
        r: Configuration, r': Configuration, before: Configuration, data: Data, table: Table, inverse: Inverse,
        trim: bool, todo: set<Key>, k: Key)
    requires forall k, v :: table(k) == Some(v) <==> inverse(v) == Some(k)
    requires Merged(r, before, data, inverse, trim, todo) && k in todo && k in data
    requires r' == if table(k).Some? then r[table(k).value := Clean(data[k], trim)] else r
    ensures Merged(r', before, data, inverse, trim, todo - {k})
  {
    forall v ensures At(r', v) == MergedAt(before, data, inverse, trim, todo - {k}, v) {
      assert At(r, v) == MergedAt(before, data, inverse, trim, todo, v);
      if inverse(v) == Some(k) {
        assert table(k) == Some(v);
      } else {
        assert table(k) != Some(v);
      }
    }
  }

  /** Copies the known entries of a source over what is there, visiting them in any order. */
  method AddSource(configuration: Configuration, data: Data, table: Table, ghost inverse: Inverse, trim: bool)
    returns (r: Configuration)
    requires forall k, v :: table(k) == Some(v) <==> inverse(v) == Some(k)
    ensures forall v :: At(r, v) == Or(Found(data, inverse(v), trim), At(configuration, v))
  {
    r := configuration;
    var todo := data.Keys;
    while todo != {}
      invariant todo <= data.Keys && Merged(r, configuration, data, inverse, trim, todo)
    {
      var k :| k in todo;
      ghost var before := r;
      if table(k).Some? {
        r := r[table(k).value := Clean(data[k], trim)];
      }
      MergedOneMore(before, r, configuration, data, table, inverse, trim, todo, k);
      todo := todo - {k};
    }
    forall v ensures At(r, v) == Or(Found(data, inverse(v), trim), At(configuration, v)) {
      assert At(r, v) == MergedAt(configuration, data, inverse, trim, {}, v);
    }
  }

  function DataOf(source: Option<Data>): Data {
    if source.None? then map[] else source.value
  }

  /** Each variable of the pairs is set exactly when the source has its key, to the value there. */
  ghost predicate Copied(r: Configuration, source: Option<Data>, trim: bool, pairs: seq<(Key, Variable)>) {
    forall i | 0 <= i < |pairs| ::
      var (k, v) := pairs[i];
      if source.Some? && k in source.value then
        v in r && r[v] == (if trim then Trim(source.value[k]) else source.value[k])
      else v !in r
  }

  lemma ExpectedIsCopied(r: Configuration, upload: Option<Data>, development: Option<Data>, secret: Option<Data>,
                         source: Source, pairs: seq<(Key, Variable)>)
    requires forall v :: At(r, v) == Expected(v, DataOf(upload), DataOf(development), DataOf(secret))
    requires forall i | 0 <= i < |pairs| :: Origin(pairs[i].1) == (source, pairs[i].0)
    ensures source.FromUpload? ==> Copied(r, upload, false, pairs)
    ensures source.FromDevelopment? ==> Copied(r, development, false, pairs)
    ensures source.FromSecret? ==> Copied(r, secret, true, pairs)
  {
    forall i | 0 <= i < |pairs|
      ensures At(r, pairs[i].1) == Expected(pairs[i].1, DataOf(upload), DataOf(development), DataOf(secret))
    {
    }
  }

  lemma ExpectedIsAll(r: Configuration, upload: Option<Data>, development: Option<Data>, secret: Option<Data>)
    requires forall v :: At(r, v) == Expected(v, DataOf(upload), DataOf(development), DataOf(secret))
    ensures Copied(r, upload, false, [(UploadMethod, UPLOAD_METHOD), (CaseNumber, CASE_NUMBER),
      (Obfuscate, OBFUSCATE), (NfsShare, NFS_SHARE), (NfsOptions, NFS_OPTIONS), (FtpServer, FTP_SERVER)])
    ensures Copied(r, development, false, [(SimulationMode, SIMULATION_MODE), (Debug, DEBUG)])
    ensures Copied(r, secret, true, [(Username, USERNAME), (Password, PASSWORD)])
  {
    ExpectedIsCopied(r, upload, development, secret, FromUpload, [(UploadMethod, UPLOAD_METHOD),
      (CaseNumber, CASE_NUMBER), (Obfuscate, OBFUSCATE), (NfsShare, NFS_SHARE), (NfsOptions, NFS_OPTIONS),
      (FtpServer, FTP_SERVER)]);
    ExpectedIsCopied(r, upload, development, secret, FromDevelopment,
                     [(SimulationMode, SIMULATION_MODE), (Debug, DEBUG)]);
    ExpectedIsCopied(r, upload, development, secret, FromSecret, [(Username, USERNAME), (Password, PASSWORD)]);
  }

  /** A source that cannot be read contributes nothing. Whatever the order of the visits, each variable is set
      exactly when the one source it can come from has its key, credentials only from the Secret and trimmed. */
  method GetEnvConfigurationFromConfigMapAndSecret(
        upload: Option<Data>, development: Option<Data>, secret: Option<Data>)
    returns (r: Configuration)
    ensures forall v :: At(r, v) == Expected(v, DataOf(upload), DataOf(development), DataOf(secret))
    ensures Copied(r, upload, false, [(UploadMethod, UPLOAD_METHOD), (CaseNumber, CASE_NUMBER),
      (Obfuscate, OBFUSCATE), (NfsShare, NFS_SHARE), (NfsOptions, NFS_OPTIONS), (FtpServer, FTP_SERVER)])
    ensures Copied(r, development, false, [(SimulationMode, SIMULATION_MODE), (Debug, DEBUG)])
    ensures Copied(r, secret, true, [(Username, USERNAME), (Password, PASSWORD)])
  {
    TablesInverted();
    r := map[];
    if upload.Some? {
      r := AddSource(r, upload.value, UploadTable, KeyIn(FromUpload), false);
    }
    if development.Some? {
      r := AddSource(r, development.value, DevelopmentTable, KeyIn(FromDevelopment), false);
    }
    if secret.Some? {
      r := AddSource(r, secret.value, SecretTable, KeyIn(FromSecret), true);
    }
    ExpectedIsAll(r, upload, development, secret);
  }

  function Expected(v: Variable, upload: Data, development: Data, secret: Data): Option<string> {
    var (source, key) := Origin(v);
    match source
    case FromUpload => Found(upload, Some(key), false)
    case FromDevelopment => Found(development, Some(key), false)
    case FromSecret => Found(secret, Some(key), true)
  }

  /** So the merge is one map: what two calls over the same sources return is the same, whatever order each
      visited the entries in. */
  lemma MergeIsUnique(
        r: Configuration, q: Configuration, upload: Option<Data>, development: Option<Data>, secret: Option<Data>)
    requires forall v :: At(r, v) == Expected(v, DataOf(upload), DataOf(development), DataOf(secret))
    requires forall v :: At(q, v) == Expected(v, DataOf(upload), DataOf(development), DataOf(secret))
    ensures r == q
  {
    forall v ensures (v in r <==> v in q) && (v in r ==> r[v] == q[v]) {
      assert At(r, v) == At(q, v);
    }
  }

  // ---------- the array ----------

  datatype EnvVar = EnvVar(name: Variable, value: string)

  /** Lists every variable once, in whatever order the map is visited. */
  method MapToEnvVarArr(configuration: Configuration) returns (arr: seq<EnvVar>)
    ensures |arr| == |configuration|
    ensures forall i, j | 0 <= i < j < |arr| :: arr[i].name != arr[j].name
    ensures forall i | 0 <= i < |arr| :: arr[i].name in configuration && configuration[arr[i].name] == arr[i].value
    ensures forall k | k in configuration :: EnvVar(k, configuration[k]) in arr
  {
    arr := [];
    var todo := configuration.Keys;
    while todo != {}
      invariant todo <= configuration.Keys && |arr| + |todo| == |configuration|
      invariant forall i, j | 0 <= i < j < |arr| :: arr[i].name != arr[j].name
      invariant forall i | 0 <= i < |arr| ::
        arr[i].name in configuration && arr[i].name !in todo && configuration[arr[i].name] == arr[i].value
      invariant forall k | k in configuration && k !in todo :: EnvVar(k, configuration[k]) in arr
    {
      var k :| k in todo;
      arr, todo := arr + [EnvVar(k, configuration[k])], todo - {k};
    }
  }
}
