/**
 * Primitives owned by the engine or by the Python runtime. Their implementations are
 * not part of this model: each one is a function-valued field, so every property proved
 * about the core holds whatever these functions do.
 */
module Host {
  import opened Wrappers

  /** Engine path and file primitives as the C++ translators see them. */
  datatype EnginePaths = EnginePaths(
    normalize: string -> string,        // FPaths::NormalizeFilename
    baseFilename: string -> string,     // FPaths::GetBaseFilename
    extension: string -> string,        // FPaths::GetExtension (without the dot)
    fileExists: string -> bool,         // FPaths::FileExists
    fileSize: string -> int,            // IPlatformFile::FileSize (negative when unknown)
    loadFile: string -> Option<string>  // FFileHelper::LoadFileToString; None when it returns false
  )

  /** The `os.path` / `fnmatch` primitives the Python layer calls. */
  datatype PyOs = PyOs(
    pathExists: string -> bool,         // os.path.exists
    abspath: string -> string,          // os.path.abspath
    basename: string -> string,         // os.path.basename
    splitextExt: string -> string,      // os.path.splitext(p)[1], dot included
    getsize: string -> int,             // os.path.getsize
    fnmatch: (string, string) -> bool   // fnmatch.fnmatch(name, pattern)
  )
}
