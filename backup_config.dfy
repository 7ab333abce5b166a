/** The backup configuration: its defaults, how environment variables
    override them, and the validation run before backups start. The
    environment is a map (an absent variable reads as ""), and Go's duration
    syntax is parsed by the `parseDuration` parameter. Durations are int64
    nanoseconds. */
module BackupConfigModel {
  import opened Common

  datatype S3BackupConfig = S3BackupConfig(accessKeyID: string, secretAccessKey: string, region: string,
                                           bucket: string, prefix: string, storageClass: string)

  datatype AzureBackupConfig = AzureBackupConfig(accountName: string, accountKey: string,
                                                 containerName: string, prefix: string)

  datatype BackupConfig = BackupConfig(
    enabled: bool,
    backupDir: string,
    maxRetries: int,
    retryWait: int,
    autoBackupEnabled: bool,
    backupInterval: int,
    backupTime: string,
    retentionDays: int,
    maxBackupCount: int,
    compressBackups: bool,
    validateAfterBackup: bool,
    validateBeforeRestore: bool,
    encryptBackups: bool,
    encryptionKey: string,
    storageType: string,
    s3Config: Option<S3BackupConfig>,
    azureConfig: Option<AzureBackupConfig>,
    compressionLevel: int,
    parallelJobs: int,
    bufferSize: int,
    notifyOnSuccess: bool,
    notifyOnFailure: bool,
    webhookURL: string,
    slackWebhookURL: string,
    emailNotifications: bool)

  type Env = map<string, string>

  /** os.Getenv: "" for an unset variable. */
  function Getenv(env: Env, key: string): string
  {
    if key in env then env[key] else ""
  }

  function GetEnvString(env: Env, key: string, default: string): (r: string)
    ensures r == (if Getenv(env, key) != "" then Getenv(env, key) else default)
  {
    var v := Getenv(env, key);
    if v != "" then v else default
  }

  /** A set variable that does not parse as a boolean leaves the default. */
  function GetEnvBool(env: Env, key: string, default: bool): (r: bool)
    ensures ParseBool(Getenv(env, key)).None? ==> r == default
    ensures ParseBool(Getenv(env, key)).Some? ==> r == ParseBool(Getenv(env, key)).value
  {
    var v := Getenv(env, key);
    if v != "" && ParseBool(v).Some? then ParseBool(v).value else default
  }

  /** A set variable that does not parse as an integer leaves the default. */
  function GetEnvInt(env: Env, key: string, default: int): (r: int)
    ensures ParseInt(Getenv(env, key)).None? ==> r == default
    ensures ParseInt(Getenv(env, key)).Some? ==> r == ParseInt(Getenv(env, key)).value
  {
    var v := Getenv(env, key);
    if v != "" && ParseInt(v).Some? then ParseInt(v).value else default
  }

  function GetEnvDuration(env: Env, key: string, default: int, parseDuration: string -> Option<int>): (r: int)
    ensures Getenv(env, key) == "" || parseDuration(Getenv(env, key)).None? ==> r == default
  {
    var v := Getenv(env, key);
    if v != "" && parseDuration(v).Some? then parseDuration(v).value else default
  }

  /** The configuration built from the environment; the cloud settings are
      read only for their storage type. */
  function LoadBackupConfig(env: Env, parseDuration: string -> Option<int>): (c: BackupConfig)
    ensures c.s3Config.Some? <==> c.storageType == "s3"
    ensures c.azureConfig.Some? <==> c.storageType == "azure"
  {
    var storageType := GetEnvString(env, "BACKUP_STORAGE_TYPE", "local");
    BackupConfig(
      GetEnvBool(env, "BACKUP_ENABLED", true),
      GetEnvString(env, "BACKUP_DIR", "./backups"),
      GetEnvInt(env, "BACKUP_MAX_RETRIES", 3),
      GetEnvDuration(env, "BACKUP_RETRY_WAIT", Second, parseDuration),
      GetEnvBool(env, "AUTO_BACKUP_ENABLED", true),
      GetEnvDuration(env, "BACKUP_INTERVAL", 24 * Hour, parseDuration),
      GetEnvString(env, "BACKUP_TIME", "03:00"),
      GetEnvInt(env, "BACKUP_RETENTION_DAYS", 30),
      GetEnvInt(env, "BACKUP_MAX_COUNT", 100),
      GetEnvBool(env, "BACKUP_COMPRESS", true),
      GetEnvBool(env, "BACKUP_VALIDATE_AFTER", true),
      GetEnvBool(env, "BACKUP_VALIDATE_BEFORE_RESTORE", true),
      GetEnvBool(env, "BACKUP_ENCRYPT", false),
      GetEnvString(env, "BACKUP_ENCRYPTION_KEY", ""),
      storageType,
      if storageType == "s3" then
        Some(S3BackupConfig(
          GetEnvString(env, "AWS_ACCESS_KEY_ID", ""),
          GetEnvString(env, "AWS_SECRET_ACCESS_KEY", ""),
          GetEnvString(env, "AWS_REGION", "us-east-1"),
          GetEnvString(env, "BACKUP_S3_BUCKET", ""),
          GetEnvString(env, "BACKUP_S3_PREFIX", "toeic-backups/"),
          GetEnvString(env, "BACKUP_S3_STORAGE_CLASS", "STANDARD")))
      else None,
      if storageType == "azure" then
        Some(AzureBackupConfig(
          GetEnvString(env, "AZURE_STORAGE_ACCOUNT", ""),
          GetEnvString(env, "AZURE_STORAGE_KEY", ""),
          GetEnvString(env, "BACKUP_AZURE_CONTAINER", "toeic-backups"),
          GetEnvString(env, "BACKUP_AZURE_PREFIX", "backups/")))
      else None,
      GetEnvInt(env, "BACKUP_COMPRESSION_LEVEL", 6),
      GetEnvInt(env, "BACKUP_PARALLEL_JOBS", 1),
      GetEnvInt(env, "BACKUP_BUFFER_SIZE", 64 * 1024),
      GetEnvBool(env, "BACKUP_NOTIFY_SUCCESS", false),
      GetEnvBool(env, "BACKUP_NOTIFY_FAILURE", true),
      GetEnvString(env, "BACKUP_WEBHOOK_URL", ""),
      GetEnvString(env, "BACKUP_SLACK_WEBHOOK_URL", ""),
      GetEnvBool(env, "BACKUP_EMAIL_NOTIFICATIONS", false))
  }

  datatype ConfigError =
    | EmptyBackupDir
    | TooFewRetries
    | TooFewRetentionDays
    | TooFewBackups
    | CompressionLevelOutOfRange
    | MissingS3Config
    | MissingAzureConfig
    | MissingEncryptionKey

  /** What an enabled configuration must satisfy. */
  predicate Sound(c: BackupConfig)
  {
    && c.backupDir != ""
    && c.maxRetries >= 1
    && c.retentionDays >= 1
    && c.maxBackupCount >= 1
    && 1 <= c.compressionLevel <= 9
    && (c.storageType == "s3" ==> c.s3Config.Some?)
    && (c.storageType == "azure" ==> c.azureConfig.Some?)
    && (c.encryptBackups ==> c.encryptionKey != "")
  }

  /** A disabled configuration is never refused; an enabled one is refused
      with the first rule it breaks. */
  function Validate(c: BackupConfig): (e: Option<ConfigError>)
    ensures !c.enabled ==> e.None?
    ensures c.enabled ==> (e.None? <==> Sound(c))
    ensures c.enabled && c.backupDir == "" ==> e == Some(EmptyBackupDir)
    ensures c.enabled && c.backupDir != "" && c.maxRetries < 1 ==> e == Some(TooFewRetries)
  {
    if !c.enabled then None
    else if c.backupDir == "" then Some(EmptyBackupDir)
    else if c.maxRetries < 1 then Some(TooFewRetries)
    else if c.retentionDays < 1 then Some(TooFewRetentionDays)
    else if c.maxBackupCount < 1 then Some(TooFewBackups)
    else if c.compressionLevel < 1 || c.compressionLevel > 9 then Some(CompressionLevelOutOfRange)
    else if c.storageType == "s3" && c.s3Config.None? then Some(MissingS3Config)
    else if c.storageType == "azure" && c.azureConfig.None? then Some(MissingAzureConfig)
    else if c.encryptBackups && c.encryptionKey == "" then Some(MissingEncryptionKey)
    else None
  }

  /** With nothing set in the environment the defaults apply, and they pass
      validation. */
  lemma DefaultsAreValid(parseDuration: string -> Option<int>)
    ensures var c := LoadBackupConfig(map[], parseDuration);
      c.enabled && c.backupDir == "./backups" && c.maxRetries == 3 && c.retentionDays == 30
      && c.maxBackupCount == 100 && c.compressionLevel == 6 && c.storageType == "local"
      && c.retryWait == Second && c.backupInterval == 24 * Hour
      && Validate(c).None?
  {
  }

  /** A loaded configuration never lacks the cloud settings of its storage
      type, so those two rules never fire on it. */
  lemma LoadedHasCloudSettings(env: Env, parseDuration: string -> Option<int>)
    ensures Validate(LoadBackupConfig(env, parseDuration)) != Some(MissingS3Config)
    ensures Validate(LoadBackupConfig(env, parseDuration)) != Some(MissingAzureConfig)
  {
  }

  /** time.Duration(days) * 24 * time.Hour, with Go's int64 wrap-around. */
  function GetRetentionDuration(c: BackupConfig): (d: int)
    ensures IsInt64(d)
  {
    WrapInt64(WrapInt64(c.retentionDays * 24) * Hour)
  }

  /** Below 106751 days (about 292 years) the product does not overflow and
      the duration is exactly that many days. */
  lemma RetentionDurationExact(c: BackupConfig)
    requires 0 <= c.retentionDays <= 106751
    ensures GetRetentionDuration(c) == c.retentionDays * 24 * Hour
  {
  }
}
