/** The settings the core reads (`core/config.py`). Each may be overridden
    from the environment, so the services take them as given values; the
    defaults are recorded here. */
module Config {

  datatype Settings = Settings(
    sessionTimeout: int,         // seconds a session lives after its last write
    maxMessagesPerSession: int,  // messages kept per session
    maxFileSize: int,            // largest accepted upload, in bytes
    topK: int)                   // passages the retriever returns

  const Defaults := Settings(3600, 20, 52428800, 25)
}
