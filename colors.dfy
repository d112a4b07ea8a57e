/** The part of java.awt.Color the model needs: four channels, each of which the
    Color constructor accepts only in 0..255. */
module Colors {

  type Channel = x: int | 0 <= x <= 255

  datatype Color = Color(red: Channel, green: Channel, blue: Channel, alpha: Channel)
}
