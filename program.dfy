/** The record every scan works on: one installed program, as the platform
    enumeration reports it (`InstalledProgram` in src/main.rs). */
module Programs {

  import opened Wrappers

  datatype InstalledProgram = InstalledProgram(
    name: string,
    version: Option<string>,
    publisher: Option<string>,
    installDate: Option<string>)
}
