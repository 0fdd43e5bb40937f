/**
  Numeric constants of rpmlib's public header (`rpmlib.h`, `header.h`)
  that the binding switches on. rpmlib itself is not part of this model;
  the values are the ones its header declares.
 */
module RpmTags {

  // Entry value types (`RPM_*_TYPE`).
  const CHAR_TYPE: int := 1
  const INT8_TYPE: int := 2
  const INT16_TYPE: int := 3
  const INT32_TYPE: int := 4
  const STRING_TYPE: int := 6
  const BIN_TYPE: int := 7
  const STRING_ARRAY_TYPE: int := 8

  /** The types `hdrKeyList` lists and `hdrSubscript` knows how to convert. */
  const SupportedTypes: set<int> :=
    {BIN_TYPE, INT32_TYPE, CHAR_TYPE, INT8_TYPE, INT16_TYPE, STRING_ARRAY_TYPE, STRING_TYPE}

  /** `HEADER_I18NTABLE`: the locale table, an internal bookkeeping entry. */
  const HEADER_I18NTABLE: int := 100

  // Tags the binding names.
  const TAG_SUMMARY: int := 1004
  const TAG_DESCRIPTION: int := 1005
  const TAG_GROUP: int := 1016
  const TAG_ARCH: int := 1022
  const TAG_OLDFILENAMES: int := 1027
  const TAG_FILESIZES: int := 1028
  const TAG_FILESTATES: int := 1029
  const TAG_FILEMODES: int := 1030
  const TAG_FILEUIDS: int := 1031
  const TAG_FILEGIDS: int := 1032
  const TAG_FILERDEVS: int := 1033
  const TAG_FILEMTIMES: int := 1034
  const TAG_FILEMD5S: int := 1035
  const TAG_FILELINKTOS: int := 1036
  const TAG_FILEFLAGS: int := 1037
  const TAG_ROOT: int := 1038
  const TAG_FILEUSERNAME: int := 1039
  const TAG_FILEGROUPNAME: int := 1040

  /** Tags `hdrSubscript` always returns as a list, even with a single value. */
  const ForceArrayTags: set<int> :=
    {TAG_OLDFILENAMES, TAG_FILESIZES, TAG_FILESTATES, TAG_FILEMODES, TAG_FILEUIDS,
     TAG_FILEGIDS, TAG_FILERDEVS, TAG_FILEMTIMES, TAG_FILEMD5S, TAG_FILELINKTOS,
     TAG_FILEFLAGS, TAG_ROOT, TAG_FILEUSERNAME, TAG_FILEGROUPNAME}

  // Transaction callback events (`rpmCallbackType`) the callback treats specially.
  const CALLBACK_INST_OPEN_FILE: int := 2
  const CALLBACK_INST_CLOSE_FILE: int := 3
}
