/** The client's value types and its fixed table of sample doctors. */
module Types {
  import opened Wrappers

  /** `new Date()` values: the model treats clock readings as opaque numbers. */
  type Timestamp = int

  datatype Role = User | Assistant

  /** A chat message, immutable once created. */
  datatype Message = Message(id: string, role: Role, content: string, timestamp: Timestamp)

  /** Coordinates in degrees; the model uses exact reals for JavaScript numbers. */
  datatype UserLocation = UserLocation(lat: real, lng: real)

  datatype Doctor = Doctor(
    id: string,
    name: string,
    specialty: string,
    lat: real,
    lng: real,
    phone: string,
    address: string,
    governorate: Option<string>)

  /** The city centre of Tunis, the store's default location. */
  const DefaultLocation := UserLocation(36.8065, 10.1815)

  /** The six sample doctors around Tunis. */
  const MockDoctors: seq<Doctor> := [
    Doctor("1", "Dr. Ahmed Ben Salem", "Médecin dentiste", 36.8065, 10.1815,
      "+216 71 123 456", "Avenue Habib Bourguiba, Tunis", Some("Tunis")),
    Doctor("2", "Dr. Fatma Mahjoub", "Gynécologue Obstétricien", 36.8189, 10.1658,
      "+216 71 234 567", "Rue de la Liberté, Tunis", Some("Tunis")),
    Doctor("3", "Dr. Mohamed Trabelsi", "Cardiologue", 36.7998, 10.1732,
      "+216 71 345 678", "Avenue de Paris, Tunis", Some("Tunis")),
    Doctor("4", "Dr. Salma Gharbi", "Dermatologue", 36.8312, 10.1923,
      "+216 71 456 789", "Lac 2, Tunis", Some("Tunis")),
    Doctor("5", "Dr. Karim Bouazizi", "Ophtalmologue", 36.7856, 10.1547,
      "+216 71 567 890", "El Menzah, Tunis", Some("Tunis")),
    Doctor("6", "Dr. Leila Messaoudi", "Chirurgien Orthopédiste", 36.8423, 10.2087,
      "+216 71 678 901", "La Marsa, Tunis", Some("Tunis"))
  ]
}
