/** The command records, each carrying the id of the job that tracks it. */
module Commands {
  import opened Jobs

  /** A command's runtime type, the key handlers are registered under. */
  datatype CommandType = SendEmailCommand | SendSmsCommand | GenerateReportCommand | UserRegisteredCommand

  datatype Command =
    | SendEmail(jobId: JobId, to: string, subject: string, body: string)
    | SendSms(jobId: JobId, phoneNumber: string, message: string)
    | GenerateReport(jobId: JobId, reportType: string, rangeFrom: int, rangeTo: int)
    | UserRegistered(jobId: JobId, email: string, phoneNumber: string, fullName: string)

  /** `command.GetType()`. */
  function TypeOf(c: Command): CommandType {
    match c
    case SendEmail(_, _, _, _) => SendEmailCommand
    case SendSms(_, _, _) => SendSmsCommand
    case GenerateReport(_, _, _, _) => GenerateReportCommand
    case UserRegistered(_, _, _, _) => UserRegisteredCommand
  }

  const SendEmailName := "SendEmailCommand"
  const SendSmsName := "SendSmsCommand"
  const GenerateReportName := "GenerateReportCommand"
  const UserRegisteredName := "UserRegisteredCommand"

  /** `nameof(...)` of a command type. */
  function TypeName(t: CommandType): string {
    match t
    case SendEmailCommand => SendEmailName
    case SendSmsCommand => SendSmsName
    case GenerateReportCommand => GenerateReportName
    case UserRegisteredCommand => UserRegisteredName
  }
}
