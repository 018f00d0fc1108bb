/** The tool's configuration constants, passed explicitly instead of read from globals. */
module Settings {

  datatype Config = Config(
    boneDelta: real,        // distance each bone is moved to measure its influence
    failureThreshold: int,  // distinct failures tolerated before the user is warned
    normalize: bool,        // whether weight lists are rescaled to sum to one
    filePreference: bool    // prefer the file over in-memory data when both are valid
  )

  /** The shipped values of BONE_DELTA, FAILURE_THRESHOLD, NORMALIZE and FILE_PREFERENCE. */
  const Default: Config := Config(2.0, 0, true, true)
}
