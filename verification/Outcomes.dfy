/** domain/errors.py: how an operation ends. */
module Outcomes {
  datatype Fault =
    | SshFault                      // SSHConnectionError
    | SnapshotFault                 // SnapshotError
    | RetentionFault(name: string)  // RetentionError naming the file that could not be deleted
    | OsFault                       // an OSError nobody wraps
    | SettingsFault                 // a configured number is not one: raised before a server's backup starts
    | DecodeFault                   // UnicodeDecodeError: a command's output is not text

  datatype Result<+T> = Done(value: T) | Raised(fault: Fault)

  datatype Option<+T> = None | Some(value: T)
}
