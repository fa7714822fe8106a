/** The records the backend returns, as declared in types/rotation.ts. */
module RotationTypes {

  /** A value that may be `null`. */
  datatype Option<+T> = None | Some(value: T)

  /** A member of the roster. */
  datatype User = User(id: int, name: string, email: string, active: bool)

  /** The rotation singleton; nobody may be on duty. */
  datatype Rotation = Rotation(id: int, currentUser: Option<User>)

  /** One week of the forecast as the backend sends it: a week index and a display name. */
  datatype MonthlyRotation = MonthlyRotation(week: int, user: string)
}
