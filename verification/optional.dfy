/** The absent-or-present reference used wherever the overlay tests a Unity
    reference against null (a shader, a shared material, a selected node). */
module Optional {

  datatype Option<+T> = None | Some(value: T)
}
